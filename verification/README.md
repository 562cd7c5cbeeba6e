# NutriFit local data layer — a Dafny model

NutriFit is a single-page fitness application with no server. Everything it
remembers lives in five browser storage slots: the users, the current session
user, the community posts, the exercise library and the chat messages. This
project models that storage service and the event handlers that write to it.

The handlers covered are these:

- sign-in and registration with auto-login;
- onboarding and its allergy list;
- the water counter and diet-plan totals on the dashboard;
- post creation and the community filter;
- the admin exercise form;
- the application shell's screen and navigation gating.

The store is an immutable record with one field per slot. Every operation is
a pure function from store to store, plus a result where the source returns
one. Component state (a form, the wizard, the displayed feed, the admin list)
is a datatype next to the store.

Some values come from the clock or from the external AI service. They are
parameters:

- new record ids and post timestamps;
- the time the seed posts are stamped from (`Store.loadTime`);
- the diet plan, or the failure to make one;
- the moderation verdict;
- the advice reply.

Module layout follows the source:

- `Types`: `types.ts`;
- `Constants`: `constants.ts`;
- `Storage`: `services/storageService.ts`, with `StorageLaws` holding the laws
  that relate several of its calls;
- `Auth`, `Onboarding`, `Dashboard`, `Community`, `AdminPanel` and `App`: the
  components of the same names.

`Text` models JavaScript `trim()` and string truthiness. `Seqs` models
`Array.prototype.filter`.

Two places where the code does not keep what its own structure suggests:

- `saveUser` re-synchronises the session with the saved record, as its
  comment at services/storageService.ts:29 says ("update current user if it's
  the one being saved"). It is the only place where the code does this. An
  ordinary login keeps the two in step as well, because it copies a stored
  record into the session (`StorageLaws.LoginPreservesCoherence`). The admin
  backdoor at services/storageService.ts:38-49 escapes this: it fabricates a
  fresh admin record on every login without reading the users. Once an admin
  record has been saved (the dashboard's water button saves whatever user it
  shows), the next admin login sets a session that differs from the stored
  record with the same id. `StorageLaws.AdminLoginCanBreakCoherence`
  exhibits this. The coherence lemmas therefore require that no `"admin"`
  record is stored when the admin credentials are used.
- Registration hands the application the new record even when auto-login set
  the session to someone else: an earlier account with the same e-mail and
  password, or the admin record. `Auth.RegistrationSession` states which
  session results. `Auth.RegistrationCanSplitSession` states the
  disagreement.

## Model

| member | source | states |
|---|---|---|
| `Text.Trim` | components/Onboarding.tsx:37-38 | `trim()` returns a slice of its input that neither starts nor ends with whitespace; everything cut off on either side is whitespace |
| `Text.TrimEmptyIffBlank` | App.tsx:43 | a string trims to `''` exactly when every character is whitespace, so the "blank after trimming" guards test `IsBlank` |
| `Seqs.Filter` | components/Dashboard.tsx:24 | `filter` keeps only elements that pass, each passing value exactly as many times as in the input |
| `Constants.MockPosts` | constants.ts:41-64 | the seed holds two posts, `p1` then `p2`, older first and both before the load time, with no comments and no image |
| `Storage.GetUsers` | services/storageService.ts:14-17 | the users read back as stored; a slot never written is kept as the empty sequence |
| `Storage.GetCurrentUser` | services/storageService.ts:65-68 | the session reads as absent exactly when none is stored, and otherwise as the stored record |
| `Storage.GetPosts` | services/storageService.ts:71-74 | the posts read back as stored, or as the two seed posts while the slot was never written |
| `Storage.GetExercises` | services/storageService.ts:83-86 | the exercises read back as stored, or as the three default exercises while the slot was never written |
| `Storage.GetMessages` | services/storageService.ts:95-98 | the messages read back as stored, or as none while the slot was never written |
| `Storage.IndexOfId` | services/storageService.ts:21 | `findIndex` gives -1 exactly when no user has the id, and otherwise the first position holding it |
| `Storage.SaveUser` | services/storageService.ts:19-33 | upsert: the first record with the id is replaced in place, otherwise the user is appended; the session becomes the user iff it had the same id and is otherwise unchanged (never created); posts, exercises and messages are untouched |
| `Storage.AdminUser` | services/storageService.ts:39-47 | the fabricated admin has id "admin", role ADMIN, no password, no profile and all three counters 0 |
| `Storage.FindByCredentials` | services/storageService.ts:53 | `find` returns nothing exactly when no user matches e-mail and password, and otherwise the first matching user in stored order |
| `Storage.Login` | services/storageService.ts:36-59 | the admin credentials give the admin record whatever the users are; otherwise the first stored user matching both fields; a success sets the session to the returned user and changes nothing else; a failure returns nothing and changes nothing |
| `Storage.Logout` | services/storageService.ts:61-63 | the session reads as absent afterwards, and every other slot is unchanged |
| `Storage.AddPost` | services/storageService.ts:71-80 | the posts read back as the new post followed by what was read before, the seed if never written; no other slot changes |
| `Storage.AddExercise` | services/storageService.ts:83-92 | the exercises read back as what was read before (the seed if never written) followed by the new one; no other slot changes |
| `Storage.SendMessage` | services/storageService.ts:95-104 | the messages read back as the earlier ones (none if never written) followed by the new one; no other slot changes |
| `StorageLaws.SaveUserReadBack` | services/storageService.ts:19-27 | after saving, the first record found under the user's id is the saved user |
| `StorageLaws.SaveUserKeepsIdsUnique` | services/storageService.ts:21-26 | if ids were unique before a save they stay unique, and exactly one record has the saved id: the saved user |
| `StorageLaws.SaveUserLastWriteWins` | services/storageService.ts:19-33 | saving two values under one id leaves the same store as saving only the second |
| `StorageLaws.SaveUserPreservesCoherence` | services/storageService.ts:29-33 | saving keeps ids unique and keeps every stored record with the session's id equal to the session |
| `StorageLaws.LoginPreservesCoherence` | services/storageService.ts:36-59 | a login keeps the store coherent, provided no "admin" record is stored when the admin credentials are used |
| `StorageLaws.AdminLoginCanBreakCoherence` | services/storageService.ts:38-49 | admin login, saving the admin with one glass of water, logout, then admin login again leaves a session that differs from the stored admin record |
| `StorageLaws.LogoutIdempotent` | services/storageService.ts:61-63 | logging out twice is logging out once |
| `StorageLaws.FreshStoreReadsDefaults` | services/storageService.ts:14-98 | an untouched store reads as no users, no session, the seed posts, the seed exercises and no messages |
| `StorageLaws.FirstWriteKeepsSeed` | services/storageService.ts:71-92 | one post on a fresh store reads back as `[p, seed0, seed1]`; one exercise reads back as the three seeds followed by it |
| `Auth.NewUser` | components/Auth.tsx:35-44 | a registered user has role USER, the given name, e-mail and password, no profile, and all counters 0 |
| `Auth.HandleSubmit` | components/Auth.tsx:18-49 | login mode hands over exactly what `login` returned, or sets the error and hands over nothing; registration with an empty field sets the error and leaves the store alone; otherwise it saves, logs in with the same credentials and hands over the new record; only the form's error line changes |
| `Auth.RegistrationAppends` | components/Auth.tsx:35-45 | with a fresh id the new record is appended to the users; no check of the e-mail against existing users is made |
| `Auth.FindAfterAppend` | components/Auth.tsx:45-46 | after a record is appended, the first-match search finds an earlier match if there is one and the appended record otherwise |
| `Auth.RegistrationSession` | components/Auth.tsx:45-47 | after registration the session is the admin record for the admin credentials, else an earlier account with the same credentials if any, else the new record; the application always receives the new record |
| `Auth.RegistrationCanSplitSession` | components/Auth.tsx:45-47 | with an earlier account sharing the credentials, the session is not the new record, yet the new record is handed to the application |
| `Auth.RegistrationPreservesCoherence` | components/Auth.tsx:45-46 | a submit keeps the store coherent, apart from the admin-backdoor case |
| `Onboarding.Start` | components/Onboarding.tsx:14-25 | the wizard starts at step 1 with an empty allergy input and profile 25 / Male / 170 cm / 70 kg / no allergies / Standard Balanced / Beginner / Maintenance |
| `Onboarding.HandleNext` | components/Onboarding.tsx:27 | the step goes up by exactly one and nothing else changes |
| `Onboarding.HandleBack` | components/Onboarding.tsx:28 | the step goes down by exactly one and nothing else changes |
| `Onboarding.BackUndoesNext` | components/Onboarding.tsx:27-28 | back after next, and next after back, give back the wizard unchanged, with the profile and allergy input kept |
| `Onboarding.HandleComplete` | components/Onboarding.tsx:30-34 | the saved and returned user has the wizard's profile and every other field unchanged |
| `Onboarding.AddAllergy` | components/Onboarding.tsx:36-41 | blank input changes nothing; otherwise the trimmed, non-empty entry is appended after the existing allergies, the input is cleared, and the rest of the profile is kept |
| `Onboarding.RemoveAllergy` | components/Onboarding.tsx:156 | no entry equal to the removed one remains; every other entry keeps its number of occurrences; nothing else changes |
| `Onboarding.RemoveAllergyKeepsOrder` | components/Onboarding.tsx:156 | removal commutes with appending, so the remaining entries keep their order |
| `Onboarding.AddThenRemoveAllergy` | components/Onboarding.tsx:36-41 | adding an allergy not yet listed and then removing it restores the list |
| `Onboarding.CompletionIsStored` | components/Onboarding.tsx:30-34 | completing keeps the store coherent, and the completed record reads back under the user's id |
| `Dashboard.SuggestedExercises` | components/Dashboard.tsx:21-24 | the suggestions are exactly the stored exercises of the profile's level (Beginner without a profile), each as often as it is stored |
| `Dashboard.SuggestionsAfterAddExercise` | components/Dashboard.tsx:21-24 | a newly added exercise joins the end of the suggestions exactly for users of its level, so suggestions keep library order |
| `Dashboard.AddWater` | components/Dashboard.tsx:48-52 | the saved and returned user has `waterIntake` one higher and every other field unchanged |
| `Dashboard.AddWaterCounter` | components/Dashboard.tsx:48-52 | `n` presses hand back the record with `waterIntake` raised by exactly `n` and every other field unchanged |
| `Dashboard.AddWaterRepeated` | components/Dashboard.tsx:48-52 | after `n` presses the counter is `n` higher, and the first stored record under the id is the last one handed back |
| `Dashboard.GenerateDiet` | components/Dashboard.tsx:27-46 | without a profile, or when generation fails, nothing is saved or changed; on success the plan is shown and the user is saved with the plan's totals and every other field unchanged |
| `Dashboard.DietSaveOverwritesConcurrentWater` | components/Dashboard.tsx:31-39 | the diet save uses the user captured at the click, so a glass of water added while the plan was generated is lost from the stored record |
| `Dashboard.DashboardWritesPreserveCoherence` | components/Dashboard.tsx:34-52 | the water and diet writes keep the store coherent |
| `Community.Visible` | components/Community.tsx:26-30 | "All" shows every post as stored; otherwise only posts of the selected community, each as often as it is stored; `Community.VisibleAppend` fixes their stored order |
| `Community.VisibleAppend` | components/Community.tsx:26-30 | the filter keeps stored order: the visible part of `a + b` is the visible part of `a` followed by that of `b` |
| `Community.Load` | components/Community.tsx:22-32 | a reload replaces only the displayed posts, with the visible part of the stored posts |
| `Community.TargetCommunity` | components/Community.tsx:55 | posts made under "All" go to the first community; otherwise to the selected one |
| `Community.NewPost` | components/Community.tsx:51-61 | a new post carries the author's id and name, the target community, the two inputs, 0 upvotes, no comments and no image |
| `Community.HandleCreatePost` | components/Community.tsx:37-69 | an empty title or content, or an unsafe verdict, changes nothing; otherwise the post is prepended in the store and in the displayed list, and the dialog is closed and cleared |
| `Community.CreatedPostMatchesReload` | components/Community.tsx:63-64 | if the feed showed what the store held, it still does after a post is created, with the new post on top |
| `Community.CreatedPostDropsConcurrentPost` | components/Community.tsx:43-64 | the new post is prepended to the feed captured before the moderation await, so a visible post stored meanwhile is in the store but missing from the feed |
| `AdminPanel.Open` | components/AdminPanel.tsx:9-16 | the list opens as what the store reads as exercises; the form is empty, set to Beginner and Strength |
| `AdminPanel.FromDraft` | components/AdminPanel.tsx:22-29 | the built exercise copies the draft; a missing or empty description becomes `''` |
| `AdminPanel.HandleAdd` | components/AdminPanel.tsx:18-34 | without a name or video URL nothing happens; otherwise the exercise is appended to the store and to the list, and the text fields are cleared while level and category are kept |
| `AdminPanel.DeleteClicked` | components/AdminPanel.tsx:95-97 | a delete button changes neither the store nor the list |
| `AdminPanel.ListMatchesStore` | components/AdminPanel.tsx:31-32 | the displayed list equals the stored exercises when the panel opens and after every add |
| `App.Startup` | App.tsx:31-34 | the shell starts on the dashboard showing the stored session user, or no user |
| `App.StartupRestoresSession` | App.tsx:31-34 | after a successful login a reload starts with exactly the user `login` returned; after logout it starts with no user |
| `App.RegistrationReloadShowsOtherUser` | App.tsx:31-34 | where registration sets the session to an earlier account, a reload shows a different user from the one registration handed to the application |
| `App.HandleLogout` | App.tsx:36-40 | logout clears only the session, forgets the user and returns to the dashboard view |
| `App.ScreenFor` | App.tsx:56-64 | no user gives the sign-in screen; a non-admin without a profile gives onboarding, and no other user does; an admin always gets the main layout |
| `App.NavEntries` | App.tsx:85-113 | the sidebar has an admin entry exactly for admins, and always has the other three |
| `App.Navigate` | App.tsx:85-113 | clicking an entry that exists selects its view; one that does not exist changes nothing |
| `App.ContentFor` | App.tsx:141-146 | the admin panel is rendered exactly for the admin view with an admin user; the other views render their own panel |
| `App.NonAdminNeverReachesAdmin` | App.tsx:105-112 | no sequence of clicks takes a non-admin to the admin view or the admin panel |
| `App.OnboardingLeadsToMain` | App.tsx:62-64 | a user returned by onboarding completion is routed to the main layout |
| `App.AskAdvice` | App.tsx:42-54 | a query blank after trimming sends nothing and changes nothing; otherwise the reply is shown, or the fixed apology when the request fails |

## Left out

- The AI service (`services/geminiService.ts`) is not part of this model. It builds prompts and schemas and calls an external API. Its results are inputs: a diet plan or a failure, a boolean moderation verdict, and an advice reply or a failure. Its fail-open moderation policy is therefore the caller's choice of input.
- JSON encoding and `localStorage` are left out: each slot holds the typed value directly. Malformed stored data, which the source lets throw, cannot arise.
- `Date.now()` is not modelled: ids, post timestamps and the seed load time are parameters.
- The post-polling timer (`setInterval`, components/Community.tsx:33-34) is not modelled as a timer. A tick is one call of `Community.Load`.
- `components/Partners.tsx` (a timeout and a one-line filter) is not part of this model.
- Rendering, CSS, `alert`, geolocation, the mobile menu and loading flags are left out.
- The displayed diet plan's meals are carried as data but never inspected.
- Form number fields are `int`s, so `parseInt` and its NaN results are not modelled.
- Dashboard.AddWater: counters are `int`s, so `(user.waterIntake || 0)` is plain `waterIntake`. A record stored without the field (or with NaN) is not modelled.
- Seed-constant aliasing is not reproduced. `getPosts` and `getExercises` return the constant arrays themselves when the slot is empty, so the first `addPost`/`addExercise` also mutates the in-memory constant. The admin list and the community feed can then show the new item twice. Values here are immutable, so `AdminPanel.ListMatchesStore` and `Community.CreatedPostMatchesReload` describe the intended, alias-free behaviour.
- Numbers are unbounded integers; JavaScript's floating-point numbers (e.g. fractional plan totals) are not modelled.
- The App-level callbacks (`setUser` passed as `onLogin`, `onComplete`, `onUpdateUser`) are not separate members. Each handler returns the user the shell adopts.
- The three handlers that await the AI service run as one step here, over the values captured when they were started:
  - `generateDiet` saves the `user` it was rendered with. `Dashboard.DietSaveOverwritesConcurrentWater` shows the water press this loses.
  - `handleCreatePost` prepends to the `posts` it was rendered with. `Community.CreatedPostDropsConcurrentPost` shows the stored post this hides until the next poll.
  - `askAdvice` shows the reply to the query as it was sent, even if the input has changed in the meantime.
- Other interleavings of events during an await are not modelled.
