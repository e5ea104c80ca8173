# OpenSocialM — a Dafny model of its request handlers and client state

OpenSocialM is a campus social network. An Express and Mongoose backend
issues JSON Web Tokens and guards its routes with a bearer-token middleware.
A React frontend keeps the signed-in user, the theme and a few page-local
lists in component state. This project models the decision logic of both
halves and proves what each part promises.

The model is written over an in-memory store:
- users, messages and events are sequences, and `findOne`/`findById` take
  the first match in stored order;
- password hashing, token signing and verification, and the validator
  library's `isEmail` are function values passed in (`UserModel.Env`);
- server replies reach the client model as parameters.

Backend modules:
- `Gate`: the `protect` middleware. It covers token extraction from the
  `Authorization` header, the `id || _id || user.id` subject choice, the user
  lookup, and the 401 outcomes.
- `UserModel`: the user schema. It covers the required and unique fields,
  the document-id shape, first-match lookups, the pre-save hash hook, the
  `{ id }` token payload and the password check.
- `Email`: the schema's email regular expression.
- `AuthRoutes`: `POST /register`, `POST /login` and `GET /user`.
- `UserRoutes`: the profile merge, the filtered directory and the
  single-user lookup.
- `ChatRoutes`: sending a message and the two-way history.
- `EventModel` and `EventRoutes`: the event schema with its enum and
  defaults, the start-sorted listing, creation with the colour rule, and
  deletion.

Frontend modules:
- `AuthContext`: the client's auth state machine.
- `PrivateRoute`: the route guard.
- `Theme`: the light/dark theme with its class-list and storage effect.
- `Discussion`: the discussion board's filter, add and like.
- `AcademicProgress`: the GPA calculator.
- `Faculty`: the faculty feed.

Shared and combined modules:
- `Session` joins the server's reply for `GET /api/auth/user` to the
  client's `login`.
- `Common`, `Seqs` and `Text` hold the JavaScript value and list operations
  these rely on: truthiness, `filter`, first match, stable sort,
  `split(' ')`, `startsWith`, `includes` and ASCII `toLowerCase`.

Two behaviours of the code are worth naming:
- The middleware does not single out the literal tokens "null" and
  "undefined": `Gate.LiteralNullTokensNotSpecial` proves that the outcome
  for such a token depends only on what verification makes of it.
- The login route answers an unknown email and a wrong password alike:
  `AuthRoutes.LoginFailuresAlike` proves the two replies are identical.

Register has two email checks. The route's own check (`acceptsEmail`) runs
first, and the schema's pattern, a different one, runs at save time. An
address that passes the first and fails the second gets 500 "Registration
failed", not a 400. `Email.FourLetterLabelRefused` exhibits one such
address shape: `isEmail` accepts a@b.info, the schema's pattern does not.

## Model

| member | source | states |
|---|---|---|
| Seqs.Filter | frontend/src/pages/Faculty.js:34 | `Array.prototype.filter`: the result holds exactly the kept elements of the input, in a list no longer than the input |
| Seqs.FirstIndex | backend/routes/auth.js:30-32 | the match `findOne` returns: the first element satisfying the filter, or none when no element does |
| Seqs.SortBy | backend/routes/events.js:11 | `.sort({ key: 1 })`: ascending by key and a permutation of the input |
| Text.Split | backend/middleware/auth.js:12 | `split(' ')` always yields at least one field and no field contains the separator |
| Text.JoinSplit | backend/middleware/auth.js:12 | splitting loses nothing: joining the fields with the separator gives the header back |
| Text.SplitAtFirstSep | backend/middleware/auth.js:12 | the first field is the text before the first separator and the rest splits on its own |
| Email.OneAt | backend/models/User.js:24 | an address the schema pattern accepts contains exactly one '@' |
| Email.Ends | backend/models/User.js:24 | an accepted address starts with a word character and ends with '.' and 2 or 3 word characters |
| Email.NoAdjacentPunctuation | backend/models/User.js:24 | in an accepted address no two of '.', '-', '@' are adjacent |
| Email.CampusAddressAccepted | backend/models/User.js:24 | the pattern accepts a plain campus address such as a@ousl.lk |
| Email.FourLetterLabelRefused | backend/models/User.js:24 | the pattern refuses a final label of four letters (a@b.info) |
| UserModel.Find | backend/routes/auth.js:30-32 | `findOne(filter)` returns a stored user that satisfies the filter, and returns none iff no stored user does |
| UserModel.FindById | backend/middleware/auth.js:29 | a lookup by id returns a stored user with that id, and returns none iff no stored user has it |
| UserModel.FindByEmail | backend/routes/auth.js:79 | a lookup by email returns a stored user with that email, and returns none iff no stored user has it |
| UserModel.FindByIdUnique | backend/models/User.js:5-22 | under the unique indexes a lookup by a stored user's id returns exactly that user |
| UserModel.FindByEmailUnique | backend/models/User.js:19-22 | under the unique email index a lookup by a stored user's email returns exactly that user |
| UserModel.AppendKeepsInvariant | backend/models/User.js:14-22 | adding a well-formed user whose id, email and registration number clash with no stored user keeps every key unique |
| UserModel.UserDoc.PreSave | backend/models/User.js:63-71 | the password is replaced by its hash only when it was modified; otherwise the document, stored hash included, is unchanged |
| Gate.BearerToken | backend/middleware/auth.js:8-13 | a token is found only in a header starting with "Bearer", and is a non-empty field without spaces |
| Gate.SubjectId | backend/middleware/auth.js:23 | the subject is payload `id` if truthy, else `_id` if truthy, else `user.id` if truthy; it is absent iff all three are falsy |
| Gate.Resolve | backend/middleware/auth.js:23-38 | no subject gets 401 "Token invalid: No user ID found"; a subject that is not a document id gets 401 "Token is not valid"; a subject no stored user has gets 401 "User not found"; the request goes on iff a stored user has the subject, and then with that user |
| Gate.Authenticate | backend/middleware/auth.js:5-39 | no bearer token gets 401 "No token, authorization denied"; a token that fails verification gets 401 "Token is not valid"; a verified token gets Resolve's decision on its payload; a request goes on only with a stored user, password left out |
| Gate.NotBearerRejected | backend/middleware/auth.js:8-17 | a missing header, or one not starting with "Bearer", gets 401 "No token, authorization denied" |
| Gate.BearerAloneRejected | backend/middleware/auth.js:12-17 | "Bearer" with no second field counts as no token |
| Gate.EmptySecondFieldRejected | backend/middleware/auth.js:12-17 | "Bearer" followed by an empty second field counts as no token, even when a token follows after another space |
| Gate.TokenIsSecondField | backend/middleware/auth.js:12 | the token is the second space-separated field, whatever follows a further space |
| Gate.LiteralNullTokensNotSpecial | backend/middleware/auth.js:15-20 | the tokens "null" and "undefined" are not refused for their text; only verification decides |
| Gate.PayloadShapesAgree | backend/middleware/auth.js:23 | the payload shapes `{id}`, `{_id}` and `{user: {id}}` with the same subject resolve to the same outcome |
| Gate.TokenSubjectIsUser | backend/models/User.js:74-78 | the issued payload `{ id: _id }` names its user in the first place the gate looks |
| Gate.IssuedTokenAccepted | backend/middleware/auth.js:5-34 | a token issued for a stored user passes the gate with exactly that user |
| Gate.Request.Protect | backend/middleware/auth.js:5-39 | `next()` is called iff the decision forwards; `req.user` is then the stored user; every refusal sends the decision's 401; a missing user leaves `req.user` null |
| AuthRoutes.RegisterFailures | backend/routes/auth.js:12-20 | a check is reported iff it fails, and the reports keep the chain's order |
| AuthRoutes.RegisterValidMeans | backend/routes/auth.js:12-20 | a body passes iff the names, registration number, faculty and degree are non-empty, the email is accepted, the password has 6+ characters and the batch is numeric |
| AuthRoutes.RegisterErrors | backend/routes/auth.js:12-25 | the 400 error list has one message per failing check, the i-th message being the message of the i-th failing check in chain order, and is empty iff every check passes |
| AuthRoutes.Duplicate | backend/routes/auth.js:30-32 | a clash is a stored user with the same email or registration number, and there is none iff no stored user shares either |
| AuthRoutes.ValidBodySchema | backend/routes/auth.js:40-51 | for a body the route's checks accept, the schema refuses the new document exactly when the email fails the schema's pattern |
| AuthRoutes.RegisterRefusals | backend/routes/auth.js:12-61 | every refusal leaves the store as it was: invalid input gets 400 with the error list, a clash gets 400 "User already exists" or "Registration number already in use" by the clashing user's email, a schema refusal gets 500 "Registration failed" |
| AuthRoutes.RegisterSucceeds | backend/routes/auth.js:40-54 | registration succeeds iff the body is valid, nothing clashes and the schema accepts the email; it then appends exactly one user with the submitted fields and the hashed password, keeps every key unique, and returns the token a login with the same credentials returns |
| AuthRoutes.Register | backend/routes/auth.js:12-62 | the handler's reply and new store are those of RegisterResult, and the store stays valid |
| AuthRoutes.NewUserLogsIn | backend/routes/auth.js:40-54 | a newly registered user keeps the store unique and can log in with the submitted password |
| AuthRoutes.LoginErrors | backend/routes/auth.js:67-70 | login input fails iff the email is not accepted or the password is missing, with each message present iff its check fails |
| AuthRoutes.Login | backend/routes/auth.js:67-98 | invalid input gets 400 before any lookup; every other failure is 400 "Invalid credentials"; a token is issued only for a user with that email whose password matches |
| AuthRoutes.LoginSucceedsIff | backend/routes/auth.js:79-90 | with unique emails, login returns a token iff a user with that email exists and the password matches its hash |
| AuthRoutes.LoginFailuresAlike | backend/routes/auth.js:79-87 | an unknown email and a wrong password get the identical reply 400 "Invalid credentials" |
| AuthRoutes.CurrentUser | backend/routes/auth.js:103-116 | GET /user returns the user without the password, 404 "User not found" iff no stored user has the id, and 500 for an id that is not a document id |
| AuthRoutes.IssuedTokenFetchesSelf | backend/routes/auth.js:103-111 | a token issued for a stored user, sent to GET /user, passes the gate and returns that user |
| UserRoutes.Merged | backend/routes/userRoutes.js:14-23 | each of firstName, lastName, bio, degreeProgram, faculty, batch, avatar and coverImage takes the submitted value iff it is truthy and otherwise keeps its own; id, email, registration number, creation time and social links never change |
| UserRoutes.EmptyEditKeepsProfile | backend/routes/userRoutes.js:14-23 | a body with no truthy field changes nothing |
| UserRoutes.MergeIdempotent | backend/routes/userRoutes.js:14-23 | submitting the same edit twice has the effect of submitting it once |
| UserRoutes.MergedWellFormed | backend/routes/userRoutes.js:14-25 | a merged record still meets the schema's required-field and id rules |
| UserRoutes.ReplaceKeepsInvariant | backend/routes/userRoutes.js:25 | saving a record with unchanged keys keeps every key unique |
| UserRoutes.UpdateProfile | backend/routes/userRoutes.js:8-31 | a missing user gets 404 and nothing changes; otherwise the stored record becomes the merge with its password hash untouched, or the save fails with 500 and nothing changes; the store stays valid |
| UserRoutes.Profiles | backend/routes/userRoutes.js:48 | query results are the stored records without the password, one for one |
| UserRoutes.ListUsers | backend/routes/userRoutes.js:35-55 | a truthy batch filter that does not cast to a number gets 500 "Server Error", and nothing else fails; otherwise the listing holds exactly the stored users matching every supplied filter, never the requester, in store order |
| UserRoutes.NoFiltersListsAllOthers | backend/routes/userRoutes.js:37-48 | with no filters the listing is every stored user except the requester (at index i), in order |
| UserRoutes.FiltersNarrow | backend/routes/userRoutes.js:40-48 | a query that keeps every truthy filter of another and adds more succeeds only if the other does, and lists only users the other lists |
| UserRoutes.GetUser | backend/routes/userRoutes.js:59-69 | a lookup returns the user without the password, or 404 "User not found" iff the id is malformed or unknown |
| UserRoutes.GetUserFindsStored | backend/routes/userRoutes.js:59-63 | a stored user's id returns that user |
| ChatRoutes.History | backend/routes/chatRoutes.js:25-30 | the history holds exactly the messages from me to the other user and back, by createdAt ascending |
| ChatRoutes.HistorySymmetric | backend/routes/chatRoutes.js:26-29 | both participants get the same history |
| ChatRoutes.MessageStore.Send | backend/routes/chatRoutes.js:7-20 | the message's sender is the authenticated user; receiver and text are stored unchecked; exactly one message is appended and it appears in both participants' histories |
| ChatRoutes.SendLeavesOtherConversations | backend/routes/chatRoutes.js:10-16 | sending changes no other pair's history |
| EventModel.ParseCategory | backend/models/Event.js:14-17 | a category text is accepted iff it is one of Academic, Exam, Batch, General |
| EventModel.ParseCategoryName | backend/models/Event.js:14-16 | every category is accepted under its own name |
| EventModel.Validate | backend/models/Event.js:3-32 | a draft saves iff it has a title, a castable start and an absent or listed category; an absent category becomes Academic; createdAt is the creation time; title, start, colour and user are kept |
| EventRoutes.ListEvents | backend/routes/events.js:9-17 | the listing is every event, sorted by start ascending |
| EventRoutes.Colour | backend/routes/events.js:32 | the colour is '#ef4444' iff the submitted category is 'Exam' |
| EventRoutes.CreatedEventColour | backend/routes/events.js:28-36 | every created event is red iff its stored category is Exam |
| EventRoutes.EventStore.Create | backend/routes/events.js:20-42 | a missing title or date gets 400 "Please enter title and date" and stores nothing; a schema refusal gets 500; otherwise exactly the validated event, owned by the requester and starting at the submitted date, is appended |
| EventRoutes.DeleteReplies | backend/routes/events.js:45-56 | with no ownership check: a malformed id gets 500, an unknown id gets 404 "Event not found", both changing nothing; an existing id is removed with the rest kept in order and "Event removed" |
| EventRoutes.DeleteOutcomes | backend/routes/events.js:47-51 | whatever the reply, the store after a deletion is the stored events without that id, and stays valid |
| EventRoutes.RemoveKeepsValid | backend/models/Event.js:3-33 | removing one event keeps ids distinct and the colour rule, and no other stored event shares its id |
| EventRoutes.EventStore.Delete | backend/routes/events.js:45-56 | the handler's reply and new store are those of DeleteResult, and the store stays valid |
| AuthContext.AfterLoadUser | frontend/src/context/authContext.js:14-30 | without a stored token nothing changes; success sets the user and authenticates, keeping the token and the error; failure drops the token and sets the server's msg or 'Error loading user', leaving isAuthenticated and the user as they were |
| AuthContext.AfterRegister | frontend/src/context/authContext.js:31-55 | register returns true iff the reply carries a token, which is stored before loadUser runs; a failure sets the error from data.error, then data.msg, then the fallback text; loading is false at the end |
| AuthContext.AfterLogin | frontend/src/context/authContext.js:57-71 | login returns true iff the request succeeds, storing the token before loadUser; a failure sets data.msg or 'Login failed' and changes nothing else; loading is false at the end |
| AuthContext.AfterLogout | frontend/src/context/authContext.js:73-77 | logout clears the token and the user and sets isAuthenticated to false |
| AuthContext.LogoutIdempotent | frontend/src/context/authContext.js:73-77 | logging out twice is logging out once |
| AuthContext.OperationsKeepConsistent | frontend/src/context/authContext.js:14-77 | every operation keeps isAuthenticated true exactly when a user is loaded |
| AuthContext.FailedLoadKeepsSession | frontend/src/context/authContext.js:26-29 | a failed loadUser drops the token but does not sign an authenticated client out |
| AuthContext.AuthProvider.constructor | frontend/src/context/authContext.js:7-10 | the provider starts with no user, not authenticated, not loading and no error |
| AuthContext.AuthProvider.ClearErrors | frontend/src/context/authContext.js:12 | clearErrors resets the error and nothing else |
| AuthContext.AuthProvider.LoadUser | frontend/src/context/authContext.js:14-30 | the provider's state after loadUser is AfterLoadUser of the state before |
| AuthContext.AuthProvider.Register | frontend/src/context/authContext.js:31-55 | the provider's state and result after register are AfterRegister of the state before |
| AuthContext.AuthProvider.Login | frontend/src/context/authContext.js:57-71 | the provider's state and result after login are AfterLogin of the state before |
| AuthContext.AuthProvider.Logout | frontend/src/context/authContext.js:73-77 | the provider's state after logout is AfterLogout of the state before |
| PrivateRoute.Guard | frontend/src/components/routing/PrivateRoute.js:9-15 | exactly one outcome: the spinner iff loading, the nested routes iff not loading and authenticated, a replacing redirect to '/login' iff neither |
| PrivateRoute.LogoutLocksPages | frontend/src/components/routing/PrivateRoute.js:9-15 | after logout the guarded pages show only the spinner or the redirect |
| PrivateRoute.LoginOpensPages | frontend/src/components/routing/PrivateRoute.js:15 | a login whose token loads a user opens the guarded pages |
| PrivateRoute.FailedLoginStaysOutside | frontend/src/components/routing/PrivateRoute.js:15 | a failed login leaves an unauthenticated client at the redirect |
| Session.UserReply | backend/routes/auth.js:103-111 | a successful GET /api/auth/user reply carries a stored user |
| Session.LoginSignsInStoredUser | frontend/src/context/authContext.js:57-64 | logging in with a token issued for a stored user signs the client in as that user, with no error, and opens the guarded pages |
| Session.RejectedTokenDropped | frontend/src/context/authContext.js:26-29 | a token the server refuses is removed from storage and the gate's message becomes the error |
| Theme.InitialTheme | frontend/src/context/ThemeContext.js:7 | the initial theme is the stored value when there is one, else 'light' |
| Theme.Toggled | frontend/src/context/ThemeContext.js:21 | toggling maps 'light' to 'dark' and every other value to 'light' |
| Theme.ToggleTwice | frontend/src/context/ThemeContext.js:21 | toggling twice from 'light' or 'dark' returns the original; any other theme ends as 'dark' after two toggles |
| Theme.Synced | frontend/src/context/ThemeContext.js:13-14 | after the sync the class list holds the theme, lacks the opposite of 'light' or 'dark', and keeps every other class |
| Theme.SyncIdempotent | frontend/src/context/ThemeContext.js:9-18 | running the effect twice for the same theme changes nothing more |
| Theme.ThemeProvider.constructor | frontend/src/context/ThemeContext.js:7-18 | mounting picks the initial theme and runs the effect, so classes and storage agree with it |
| Theme.ThemeProvider.SyncEffect | frontend/src/context/ThemeContext.js:9-18 | the effect syncs the class list and stores the theme, keeping the theme |
| Theme.ThemeProvider.Toggle | frontend/src/context/ThemeContext.js:20-22 | toggling changes the theme as Toggled does, and the effect then syncs classes and storage |
| Discussion.FilteredPosts | frontend/src/pages/Discussion.js:57-65 | a post is shown iff its category passes the filter and the lower-cased search occurs in its lower-cased title or content; the result keeps the posts' order |
| Discussion.AllWithEmptySearchShowsEverything | frontend/src/pages/Discussion.js:57-65 | 'All' with an empty search shows every post in order |
| Discussion.NewPost | frontend/src/pages/Discussion.js:72-82 | a new post carries the form's title, content and category, 0 likes, 0 replies and is not liked |
| Discussion.Liked | frontend/src/pages/Discussion.js:93-98 | a like click flips isLiked, subtracting 1 from likes if it was liked and adding 1 if not, and changes nothing else |
| Discussion.ToggledLike | frontend/src/pages/Discussion.js:90-103 | toggleLike keeps the length, changes matching posts as Liked does, and leaves the others unchanged |
| Discussion.ToggleLikeTwice | frontend/src/pages/Discussion.js:90-103 | toggling a like twice restores the list |
| Discussion.DiscussionPage.HandleAddPost | frontend/src/pages/Discussion.js:68-87 | an empty title or content changes nothing; otherwise the new post is prepended to the unchanged list, the form closes and resets to empty with category 'General' |
| Discussion.DiscussionPage.ToggleLike | frontend/src/pages/Discussion.js:90-103 | the page's posts become ToggledLike of the old posts |
| AcademicProgress.ParseGrade | frontend/src/pages/AcademicProgress.js:79-93 | a grade found by text has that text as its name |
| AcademicProgress.ParseName | frontend/src/pages/AcademicProgress.js:79-93 | every grade is found under its own name |
| AcademicProgress.Points | frontend/src/pages/AcademicProgress.js:118 | a listed grade scores its table points, an unlisted one 0; points lie between 0 and 4.0 |
| AcademicProgress.GradeTableShape | frontend/src/pages/AcademicProgress.js:79-93 | the table has 13 distinct grades, A+ and A are 4.0, E and F are 0.0, and points never rise down the list |
| AcademicProgress.GradeColour | frontend/src/pages/AcademicProgress.js:65-74 | the colour is green, blue or yellow iff the grade starts with A, B or C, and gray otherwise |
| AcademicProgress.GrayGrades | frontend/src/pages/AcademicProgress.js:65-74 | of the table's grades exactly D+, D, E and F are gray |
| AcademicProgress.Gpa | frontend/src/pages/AcademicProgress.js:113-126 | the GPA is 0 when there are no credits, and otherwise the mean that, weighted by the total credits, gives the total points |
| AcademicProgress.PointsBounded | frontend/src/pages/AcademicProgress.js:113-122 | with positive credits the total points lie between 0 and 4.0 per credit |
| AcademicProgress.GpaBounded | frontend/src/pages/AcademicProgress.js:113-126 | with every credit positive the GPA lies between 0.0 and 4.0 |
| AcademicProgress.UnknownGradeCountsCredits | frontend/src/pages/AcademicProgress.js:118-120 | a course with an unknown grade adds its credits and no points |
| AcademicProgress.GpaCalculator.AddCourse | frontend/src/pages/AcademicProgress.js:95-107 | empty credits change nothing; otherwise one course with the parsed credits and chosen grade is appended, the credits field cleared and the grade kept |
| AcademicProgress.GpaCalculator.RemoveCourse | frontend/src/pages/AcademicProgress.js:109-111 | every course with the id is removed and the others stay in order; an absent id changes nothing |
| AcademicProgress.GpaCalculator.CalculateTotalGpa | frontend/src/pages/AcademicProgress.js:113-126 | the accumulating loop computes Gpa of the courses |
| Faculty.WithoutPost | frontend/src/pages/Faculty.js:33-35 | deletePost keeps exactly the posts with another _id, in order |
| Faculty.DeleteAbsentKeepsPosts | frontend/src/pages/Faculty.js:34 | deleting an absent id leaves the list unchanged |
| Faculty.DeleteUndoesAdd | frontend/src/pages/Faculty.js:29-35 | deleting a post just added, with a fresh id, restores the list |
| Faculty.FacultyPage.FetchPosts | frontend/src/pages/Faculty.js:14-27 | the fetched posts replace the list on success, and loading ends either way |
| Faculty.FacultyPage.AddPost | frontend/src/pages/Faculty.js:29-31 | addPost prepends the new post to the unchanged list |
| Faculty.FacultyPage.DeletePost | frontend/src/pages/Faculty.js:33-35 | the page's posts become WithoutPost of the old posts |
| Faculty.PostFormOnOwnFacultyOnly | frontend/src/pages/Faculty.js:56 | the post form shows iff a user is signed in and the page's faculty is that user's faculty |
| Faculty.PostFormFollowsSession | frontend/src/pages/Faculty.js:56 | with a consistent session the form shows only to an authenticated client, and never after logout |

## Left out

- Network, database and process plumbing are not modelled: the Mongo connection, HTTP transport, the axios calls and interceptor, `console` logging and the development-mode error details. Stores are sequences, and replies are values.
- Cryptography is not modelled. bcrypt and JSON Web Tokens are the function values `hash`, `sign` and `verify`, and the secret, the expiry and the salt live inside them.
- UserModel.UserDoc.PreSave: hashing is deterministic here. bcrypt salts every hash, and `matchPassword` is bcrypt's compare, modelled as re-hashing and equality.
- AuthRoutes.Register: the token is a function of the payload alone. Real tokens also carry issue and expiry times, so two logins give different tokens.
- AuthRoutes.Login: a password that is present but not a string (JSON null or a number) makes bcrypt's compare throw, answered with 500 "Login failed" (backend/routes/auth.js:88-97). `LoginBody` holds the password as text, so this case is not modelled.
- AuthRoutes.RegisterErrors: the error list holds the messages only. express-validator also reports the parameter, the value and the location of each error.
- AuthRoutes.RegisterFailures: the route's `isEmail` check is the parameter `acceptsEmail`, because it is a third-party validator. The schema's own pattern is modelled in full (`Email.EmailPattern`).
- UserModel.WellFormed: `batch` is kept as its numeric text, not cast to a number, and the schema's `minlength` on the password is covered by the route's own length check.
- UserRoutes.UpdateProfile: the cast of `batch` to a number at save time is the parameter `castsToNumber`.
- UserRoutes.ListUsers: the batch filter compares text. The store compares the numbers the texts cast to, so "2021" and "2021.0" would match there. Whether a text casts is the parameter `castsToNumber`.
- ChatRoutes.History: equal timestamps keep their stored order. The store leaves their order open.
- EventRoutes.ListEvents: equal start dates keep their stored order. The store leaves their order open.
- Message schema validation and casts are not modelled, because backend/models/Message.js is not part of this model. Send stores what the route builds.
- Document ids are approximated as strings of 24 hexadecimal digits. A failed cast (`CastError`) is modelled per route: 401 in the gate, 404 in `GET /users/:id`, 500 in `GET /auth/user` and `DELETE /events/:id`.
- EventRoutes.EventStore.Create: the cast of the submitted date is the parameter `parseDate`. Dates are integers.
- Route wiring is not modelled. `routes/auth.js` and `routes/posts.js` pass the middleware module object instead of `protect`, and the frontend sends `x-auth-token` where `protect` reads `Authorization`. Every handler is modelled as if `protect` ran first.
- React's batching and asynchronous interleaving of state updates, and races between concurrent requests, are not modelled. Updates apply in program order.
- Floating point is not modelled. `parseFloat` is the parameter `parseFloat` of type `string -> real`, so NaN credits, and the NaN GPA they cause, are not modelled; the GPA is an exact real before `toFixed(2)`, and the progress percentage bar is omitted.
- Rendering is not modelled: JSX, styling, and the sample posts and courses the pages show as static data.
- Theme.ThemeProvider.SyncEffect: a stored theme containing whitespace would make `classList.add` throw. Class lists are modelled as sets of names.
- Text.Lower: `toLowerCase` is ASCII only. Unicode case mapping is not modelled.
- The remaining routes and pages are presentational or stubs: posts, comments, the duplicate `models/users.js` schema, and the Register form's static data.
