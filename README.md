# Course platform backend: request handlers over an abstract store

This project models the request handlers of a Flask backend for an
educational video platform (`backend/app.py`). The platform has user
accounts (students and teachers), courses held as playlists of videos,
comments, likes, saved videos, and a teacher directory. Each handler
validates its input in a fixed order, picks a status code, and then either
leaves the data store alone or adds, changes or deletes exactly one row.

## Structure

- `options.dfy`, module `Options`: `Option` for absent JSON keys and rows
  that are not found, and `GetOr` for `data.get(key, default)`.
- `seqs.dfy`, module `Seqs`: generic queries over a table kept as a
  sequence in storage order. `IndexWhere` is `first()` / `get()`, `Filter`
  is `filter(...).all()`, and its length is `count()`. `KeyIs` is
  `filter_by(column=value)`, `UniqueKeys` says a column is unique, and
  `NextId` is the id the database gives a new row. Lemmas cover the order
  `Filter` keeps, counting after an append, and keeping a column unique
  when a row is appended, replaced or deleted.
- `text.dfy`, module `Text`: the string semantics of `column.ilike('%q%')`.
  It defines ASCII lower-casing, the decimal text of an integer column, and
  SQL `LIKE` matching with the `%` and `_` wildcards. The main lemma,
  `ILikeIsSubstring`, says that for a query without wildcards `ILIKE '%q%'`
  is the same as a case-insensitive substring test.
- `records.dfy`, module `Records`: the store's rows, the request bodies,
  the response bodies and the password policy. Rows are `User`, `Playlist`,
  `Video`, `Comment`, `Like`, `SavedVideo` and `Teacher`.
- `search_filters.dfy`, modules `SearchFilters` and `SearchExamples`: the
  three search filters as pure functions over the tables, and a worked
  example.
- `app.dfy`, module `App`: class `Backend`. It holds one sequence field per
  table, the password policy and the upload folder, and has one method per
  handler. `Valid()` is the store's integrity:
  - primary keys are unique;
  - user emails are unique (this holds because `update_profile` is left
    out; see "## Left out");
  - every role is `student` or `teacher`;
  - every video belongs to a playlist;
  - each (user, video) pair has at most one Like and at most one SavedVideo.
  Every state-changing handler keeps `Valid()`. It names only the one table
  it writes in its `modifies` clause, and its `ensures` give that table's
  exact new contents for every outcome.
- `scenarios.dfy`, module `Scenarios`: client methods that call handlers
  in sequence. They prove properties that span several requests, using only
  the handlers' contracts.

Design decisions:

- Password hashing is done by `set_password` and `check_password`, which
  are not part of this model. They are given as two opaque functions in
  `PasswordPolicy`. `Sound(policy)` states the one assumption that
  `RegisterThenLogin` uses: a password passes the check against its own
  hash.
- A request field is `None` when its key is absent. Truthiness follows
  Python:
  - a string is falsy when it is absent or empty;
  - a JSON integer is falsy when it is absent or 0.
- Handlers that return a body without a status code answer 200. This
  covers a missing `user_id` in `comments` and `like_video`, and the
  answers of `videos`, `get_video`, `get_teachers` and `get_teacher`.
- A new row's id is one more than the largest id in its table (`NextId`).
  Ids are therefore never reused while a larger one exists, and they are
  always at least 1.

Behaviour of the handlers that a reader may not expect, kept as the code
has it:

- A `user_id` that is missing from a comment or like body is answered with
  status 200 and an error body, not a client error.
- A video that is not in the requested playlist gives 404.
- A duplicate like or save gives 400, and a duplicate teacher email gives
  409.
- The user search also matches the id's decimal text.
- The search query's `%` and `_` characters are SQL wildcards, so the query
  `_` matches every non-empty field (`UnderscoreMatchesAnyNonEmpty`).

`search` is the one handler not kept as the code has it. As written it
cannot answer a non-empty query. The `.union()` call at
backend/app.py:253 is made on a boolean `or_` expression, which has no such
method, so every non-empty query raises there and ends in a 500. Beyond
that, the projections at 268-279 hand column objects to `jsonify`, which
cannot serialize them, so any non-empty result list would raise as well.
`App.Backend.Search` models what the filters at 248-264 evidently intend,
and says so under "## Left out".

Quirks of the source kept as written:

- `login` reads the password from the key `pass`.
- `register` reads the role from `user_type`. The default `student` applies
  only when that key is absent. An explicit `"user_type": null` is not told
  apart from an absent key; see "## Left out".
- `comments` and `like_video` take the video from the JSON body and ignore
  the video id in the path.
- `save_video` takes only the video id, although its route also carries a
  playlist id.
- `update_teacher` does not re-check that the teacher email is unique.
  Teacher email uniqueness is therefore not part of `Valid()`.
  `CreateTeacher` does preserve it.

## Model

| member | source | states |
|---|---|---|
| App.AllFilled | backend/app.py:66 | Defines the registration guard: all four of username, email, password and confirmation are present and non-empty. |
| App.Backend.HasPlaylist | backend/app.py:226 | Defines `Playlist.query.get(id)` finding a row: some stored playlist has that id. |
| App.Backend.HasVideo | backend/app.py:320 | Defines `Video.query.get(id)` finding a row: the id is present and some stored video has it. An absent id finds nothing. |
| App.Backend.Valid | backend/app.py:346-353 | Defines the store's integrity: unique primary keys and user emails, whitelisted roles, every video in a playlist, and at most one Like (346-353) and one SavedVideo (369-372) per (user, video) pair. Every state-changing handler keeps it. |
| App.Backend.TeacherImage | backend/app.py:423 | A teacher image path starts with the upload folder, is at least as long as the folder plus `teacher_<tag>_<file>`, and ends with `teacher_<tag>_<file>`. `tag` is the email on creation and the id on update (462). |
| App.Backend.GetUser | backend/app.py:23-51 | A missing user id gives 400 and an unknown id gives 404. Otherwise the answer is 200 with username, role, image and three counters: the comments, likes and saved videos stored with that user id. |
| App.Backend.Register | backend/app.py:54-100 | Rejects with 400 and adds nothing, in this order: a missing or empty field, password not equal to its confirmation, a role outside {student, teacher} (the default is student), an email already registered. Otherwise it appends exactly one user with a fresh id, the given username, email and role, the hash of the password and the upload path, and answers 201 with the role. Keeps `Valid()`. |
| App.Backend.Login | backend/app.py:104-131 | Missing email or password gives 400. An unknown email gives 404. A failing password check gives 401. Otherwise 200 with that user's id, username, image and role. It never changes the store. |
| App.Backend.GetUserProfile | backend/app.py:134-144 | 200 with the username, email and role of the user with that id, or 404 when there is none. |
| App.Backend.Courses | backend/app.py:216-222 | 200 with every playlist, in storage order. |
| App.Backend.PlaylistVideos | backend/app.py:224-238 | An unknown playlist gives a message with status 200. Otherwise 200 with exactly the videos whose playlist id is the requested one, in storage order. |
| App.Backend.Search | backend/app.py:241-282 | An empty query gives 404. Otherwise 200 with the users that match on username OR email OR id, the videos that match on title AND description AND URL, and the playlists that match on title, each in storage order. |
| App.Backend.GetVideo | backend/app.py:285-304 | An unknown playlist gives 400. If no video has both the requested id and that playlist id, the answer is 404. Any video returned belongs to the requested playlist. |
| App.Backend.AddComment | backend/app.py:307-328 | An unknown playlist gives 400. A missing user id gives an error body with status 200. An unknown video gives 404. Otherwise exactly one comment is appended and the answer is 201. |
| App.Backend.LikeVideo | backend/app.py:330-355 | Runs the checks of AddComment. If a Like for (user, video) already exists, the answer is 400 and the likes are unchanged. Otherwise exactly one Like is appended and the answer is 201. No pair is ever stored twice. |
| App.Backend.SaveVideo | backend/app.py:357-378 | A missing user id gives 400 and an unknown video gives 404. An existing SavedVideo for the pair gives 400 and nothing is added. Otherwise exactly one SavedVideo is appended and the answer is 201. At most one per pair is kept. |
| App.Backend.CreateTeacher | backend/app.py:405-430 | A missing name or email gives 400 and a teacher email already in use gives 409. Otherwise exactly one teacher is appended with the given fields and the upload path, and the answer is 201. Teacher email uniqueness is preserved. |
| App.Backend.GetTeachers | backend/app.py:433-436 | 200 with every teacher, in storage order. |
| App.Backend.GetTeacher | backend/app.py:439-444 | 200 with the teacher that has the id, or 404 when there is none. |
| App.Backend.UpdateTeacher | backend/app.py:447-467 | An unknown id gives 404 and changes nothing. Otherwise each of name, email, bio and subject takes the body's value when the key is present and keeps the old value when it is absent. An upload replaces the image path. Every other teacher is unchanged, and the answer is 200. |
| App.Backend.DeleteTeacher | backend/app.py:470-478 | An unknown id gives 404 and changes nothing. Otherwise exactly that teacher is removed, the others keep their order, no teacher with that id remains, and the answer is 200. |
| SearchFilters.UserMatches | backend/app.py:249-252 | Defines the user filter: the username, the email OR the id text matches `%q%` under `ILIKE`. |
| SearchFilters.PlaylistMatches | backend/app.py:257 | Defines the playlist filter: the title matches `%q%` under `ILIKE`. |
| SearchFilters.VideoMatches | backend/app.py:261-263 | Defines the video filter: the title, the description AND the URL all match `%q%` under `ILIKE`. Several `filter` arguments combine with AND. |
| SearchFilters.MatchingUsers | backend/app.py:248-254 | A user is selected exactly when its username, its email or its id text matches `%q%`. |
| SearchFilters.MatchingPlaylists | backend/app.py:256-258 | A playlist is selected exactly when its title matches `%q%`. |
| SearchFilters.MatchingVideos | backend/app.py:260-264 | A video is selected exactly when its title, description and URL all match `%q%`. |
| SearchFilters.MatchingUsersAppend | backend/app.py:248-254 | Results are in storage order: searching a concatenation of tables concatenates the results. |
| SearchFilters.UserMatchIsSubstring | backend/app.py:248-254 | For a query without wildcards, a user matches exactly when the lower-cased username OR email OR id text contains the lower-cased query. |
| SearchFilters.PlaylistMatchIsSubstring | backend/app.py:256-258 | For a query without wildcards, a playlist matches exactly when its lower-cased title contains the lower-cased query. |
| SearchFilters.VideoMatchIsSubstring | backend/app.py:260-264 | For a query without wildcards, a video matches exactly when its lower-cased title AND description AND URL each contain the lower-cased query. |
| SearchExamples.AnaExample | backend/app.py:248-254 | With one user `ana`, email `ana@x.com` and id 1, the query `ana` finds that user and the query `zz` finds nothing. |
| Text.LikeMatch | backend/app.py:250 | Defines SQL `LIKE` with `%` (any run) and `_` (any one character). For a pattern without wildcards it holds exactly when the pattern equals the text. |
| Text.ILike | backend/app.py:250 | Defines `ILIKE` as `LIKE` on the lower-cased text and pattern. For a pattern without wildcards it holds exactly when both lower-case to the same string. |
| Text.IntText | backend/app.py:252 | The text an integer id is compared through. For a non-negative id it is a numeral that reads back as the id. For a negative id it is `-` followed by a numeral for its magnitude. Only the id 0 begins with `0`. |
| Text.ILikeIsSubstring | backend/app.py:250 | For a query without `%` or `_`, `text ILIKE '%q%'` holds exactly when the lower-cased text contains the lower-cased query. |
| Text.UnderscoreMatchesAnyNonEmpty | backend/app.py:250 | The query `_` matches every non-empty field, because `_` is a LIKE wildcard. |
| Text.LeadingPercent | backend/app.py:250 | A leading `%` in a LIKE pattern lets the rest of the pattern match any suffix of the text. |
| Text.Pattern | backend/app.py:250-263 | Defines the pattern `f"%{query}%"` that every search filter builds from the query. |
| Text.PrefixPattern | backend/app.py:250 | For a wildcard-free `q`, the pattern `q%` matches exactly the texts that start with `q`. |
| Text.PercentMatchesAll | backend/app.py:250 | The pattern `%` matches every text. |
| Text.Lower | backend/app.py:250 | Lower-casing keeps the length and lower-cases each character in place (ASCII). |
| Text.DecimalText | backend/app.py:252 | The id text that the id column is compared through is a non-empty string of decimal digits, with no leading zero for a positive number. |
| Text.DecimalRoundTrip | backend/app.py:252 | Reading the id text back as a number gives the id. |
| Seqs.IndexWhere | backend/app.py:115 | `first()` returns the first row that satisfies the filter and no earlier row satisfies it. None means no row satisfies it. |
| Seqs.Filter | backend/app.py:231 | `filter(...).all()`: keeps the matching rows in storage order and returns no more rows than the table holds. `FilterMembers` gives its membership. |
| Seqs.KeyIs | backend/app.py:37-39 | Defines `filter_by(column=value)` as a row predicate: a row passes exactly when its column equals the value. The same query shape appears at 76, 115, 291, 347, 370 and 418. |
| Seqs.FilterMembers | backend/app.py:37-39 | A filter keeps exactly the rows that satisfy its predicate, and it is empty exactly when no row does. |
| Seqs.FilterAppend | backend/app.py:256-258 | Filtering a concatenation gives the concatenation of the filtered parts, so the rows keep storage order. |
| Seqs.CountAppend | backend/app.py:37-39 | Appending one row raises a count by one exactly when that row matches. |
| Seqs.UniqueKeyCount | backend/app.py:346-353 | In a column with unique values, at most one row carries any value, and a value that is present is counted exactly once. |
| Seqs.NextId | backend/app.py:93-94 | A new row's id is at least 1 and larger than every id in the table. |
| Seqs.RemoveUnique | backend/app.py:476-477 | Deleting a row keeps the column unique. It leaves no row with the deleted key and it keeps every other row. |
| Records.Filled | backend/app.py:66 | Defines Python truthiness of a string field: present and non-empty. The guards at 111 and 415 use it too. |
| Records.Truthy | backend/app.py:318 | Defines Python truthiness of a JSON integer: present and not 0. The guards at 340 and 362 use it too. |
| Records.KnownRole | backend/app.py:72 | Defines the role whitelist of registration: `student` or `teacher`. |
| Records.RequestedRole | backend/app.py:62 | Defines the requested role: the value of `user_type`, or `student` only when that key is absent. |
| Records.ProfilePath | backend/app.py:80-83 | There is a stored image path exactly when a profile file is given. It starts with `/static/uploads/`, followed by the username, `_` and the file name. |
| Records.JoinPath | backend/app.py:423 | `os.path.join(dir, name)` for a relative name: the result starts with `dir`, ends with `name` and is at least as long as `dir` and `name` together. |
| Options.GetOr | backend/app.py:454-457 | Defines `data.get(key, default)`: the body's value when the key is present, the default when it is absent. |
| Scenarios.RegisterTwice | backend/app.py:76-77 | After a successful registration, a second registration with the same email always fails with 400, whatever its other fields. |
| Scenarios.RegisterThenLogin | backend/app.py:54-131 | With a sound password policy, logging in with the credentials just registered answers 200 with the new user's id, username and role. |
| Scenarios.LikeTwice | backend/app.py:346-355 | After a successful like, the same like is refused with 400 and exactly one Like is stored for the pair. |
| Scenarios.SaveTwice | backend/app.py:369-378 | After a successful save, the same save is refused with 400 and exactly one SavedVideo is stored for the pair. |
| Scenarios.LikeRaisesProfileCounter | backend/app.py:36-39 | A successful like raises the liking user's `likes_count` by one. The other two counters do not change. |
| Scenarios.DeleteThenGet | backend/app.py:439-478 | After a teacher is deleted, fetching it gives 404. The delete succeeds exactly when the teacher existed. |
| Scenarios.UpdateTeacherTwice | backend/app.py:453-457 | Applying the same teacher update twice gives the same statuses and the same directory as applying it once. |

## Left out

- `update_profile` (backend/app.py:148-215) is not modelled. It binds `username`, `email`, `old_password`, `new_password` and `confirm_password` only inside the branch where the old password is wrong (166-171). An unknown id answers 404 at 152-153, before any of that. For a known id, three paths remain:
  - Without a truthy `old_pass`, none of these names is bound, so the read at 174 raises and the handler ends in a 500.
  - With a correct `old_pass`, the same read at 174 raises, again a 500.
  - With a wrong `old_pass`, the names are bound from `request.form`, which is empty on a JSON request, so they are all None and 174-185 are skipped. Line 193 then commits the body's `username` and `email` (158-161) and `img_url` (189-191), and the handler answers 200. The wrong password is never reported.

  The form field `c_password` read at 171 is never used, and the confirmation check at 183 compares the JSON keys `new_pass` and `c_pass`. Lines 200-210 cannot be reached after the return at 196. The path that succeeds rewrites `email` without checking that it is unique. In the full program, user-email uniqueness is therefore not an invariant. `Valid()` states it, and `App.Backend.Login`'s contract relies on it, only because this handler is left out.
- The second `register` (backend/app.py:384-401) is not modelled. It redefines the same endpoint, which the framework rejects when the module is imported.
- Routing, request parsing and `jsonify` are not modelled, nor are `send_from_directory` (17-20), the migration setup (381) and app bootstrap (484-489). The store starts from a given catalog of playlists and videos.
- The exception paths are not modelled: a body that is not JSON raises, and a failing commit answers 500 after a rollback (98-100). The in-memory store never fails.
- File uploads are not modelled. `secure_filename` and `FileStorage.save` are foreign calls with filesystem effects. An upload is given as its sanitized file name, and the model computes the stored path from it, but no file is written.
- App.Backend.Register, App.Backend.CreateTeacher and App.Backend.UpdateTeacher: their cases with an upload (`profile` or `upload` = Some) are behaviour the source never shows. Each handler reads a JSON body first (56, 408, 453) and the uploaded file afterwards (63, 413, 459). A request that carries a file is multipart, so reading the JSON body fails before the upload branch is reached. The model gives both the JSON fields and a file name, so it describes what the upload code evidently intends.
- Password hashing internals are not modelled: the salt, the hash algorithm and the check. `PasswordPolicy` treats them as opaque functions.
- A JSON `null` value is not told apart from an absent key. Under `data.get(key, default)` an explicit null would overwrite a teacher field with null (454-457). In `register`, `"user_type": null` makes `data.get` return None (62), so line 72 answers 400 "Invalid user type". The model instead registers a student with 201.
- The `user_id` query parameter of `GET /profile` is given as an optional integer. A non-numeric string finds no user, and that case is not modelled.
- SQL `LIKE` escape characters, NULL columns and non-ASCII case folding are not modelled.
- App.Backend.Search: models the intended behaviour of `search`, not the code as written. As written, every non-empty query ends in a 500. `or_(...)` at 249-253 builds a boolean clause, which has no `union` method, so line 253 raises. The projections at 268-279 hand class attributes such as `Users.id` to `jsonify`, which cannot serialize them. The model takes `.union()` as a no-op and answers with the matched rows themselves. Those rows include `passwordHash` and `thumbnail`, which no projection exposes, and the misspelled `tilte` key of 277 is not kept.
- App.Backend.GetTeachers: answers with the rows themselves. `Teacher.to_json` is not part of this model.
- `Users.to_json` and the rest of `models.py` are not part of this model. Neither is the config module, so the database engine's actual id allocation is approximated by `NextId`.
- App.Backend.SaveVideo: models the body of `save_video` as written. Its route also binds `playlist_id`, which the function does not accept, so the framework's call to it raises before the body runs. That failure is not modelled.
- Concurrency and transaction isolation are not modelled. Each handler runs as one atomic step on the store.
