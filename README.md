# Gator Marketplace — a verified model of its core

Gator Marketplace is a buy-and-sell site for University of Florida students.
A React front end offers login, registration, a dashboard of listings, a
create-listing form and a profile page. It can run against a mock account
service kept in the browser's `localStorage`. The FastAPI back end stores
users and items and answers signup, login and item requests. A seeding script
fills the database with five accounts and a hundred items and can safely be
run again.

This project models that core in Dafny and proves what each part promises:

- **The browser store.** `Storage` models `localStorage` as a class over a
  string-keyed map. The JSON text the source writes becomes a typed value, so
  each stored record reads back unchanged.
- **The mock account service.** `MockApi` models login, signup and logout over
  that store. It proves the registry keeps distinct `@ufl.edu` emails and that
  the current user is always a registered one.
- **The app shell.** `App` models the page and session state machine and its
  render guard.
- **The components.** `Dashboard`, `CreateListing`, `LoginPage`,
  `ProfilePage` and `RegisterPage` model the five front-end components: their
  guards, their state updates and their storage keys.
- **The back-end routes and tables.** `Models`, `Items` and `Auth` model the
  tables with their unique and auto-increment keys, and the item and
  authentication routes with the error responses their handlers raise.
  Request validation by the framework and the token check in front of the
  item routes are outside the model (see "Left out").
- **The seeding script.** `SeedData`, `ItemPlan`, `UserSeeding`,
  `ItemSeeding` and `Seed` model it. Its loops are imperative methods proved
  against functional folds. The headline properties are:
  - a second run inserts nothing;
  - a run on an empty database creates every account and all hundred items;
  - each seller is dealt four items per category, and a run on an empty
    database stores twenty items for each of the five seed users;
  - the statistics the script reports are exact.

The two front-end token keys differ, and the model keeps them as the code has
them. The login page stores the token under `access_token`. The dashboard
reads `gator_token`. `LoginPage.RealLoginInvisibleToDashboard` proves the
consequence: a real-mode sign-in on a fresh browser leaves the dashboard
without a token, so the dashboard asks to log the user out.

## Model

| member | source | states |
|---|---|---|
| Storage.ProfileKeyInjective | frontend/src/components/ProfilePage.tsx:25 | two users with the same `profile_` key are the same user, so profiles never collide |
| Storage.FixedKeysDistinct | frontend/src/mockApi.ts:10-11 | the mock-registry, current-user and two token keys are pairwise distinct and no profile key equals any of them |
| Storage.LocalStorage.GetItem | frontend/src/mockApi.ts:15 | `getItem` returns a value exactly when the key is stored, and that value is the stored one |
| Storage.LocalStorage.SetItem | frontend/src/mockApi.ts:21 | `setItem` overwrites one key and leaves every other key as it was |
| Storage.LocalStorage.RemoveItem | frontend/src/mockApi.ts:69 | `removeItem` drops one key and leaves every other key as it was |
| MockApi.GetMockUsers | frontend/src/mockApi.ts:14-17 | with no stored registry the user list is empty |
| MockApi.GetCurrentUser | frontend/src/mockApi.ts:73-75 | with no stored current user the result is null |
| MockApi.FindUser | frontend/src/mockApi.ts:31 | a user is found exactly when some record matches both email and password, and the index found is such a record |
| MockApi.SaveMockUsers | frontend/src/mockApi.ts:20-22 | the registry is written under `mock_users` and reads back as the same list |
| MockApi.Login | frontend/src/mockApi.ts:26-39 | succeeds exactly when the credentials match a record. On success only the current user changes, to the email. On failure the error is 'Invalid email or password' and nothing changes. The registry invariant is kept. |
| MockApi.Signup | frontend/src/mockApi.ts:42-65 | a non-`@ufl.edu` email and then a taken email are refused, in that order, with their messages and no change. Otherwise exactly one record is appended and the new email becomes the current user. The registry invariant is kept. |
| MockApi.Logout | frontend/src/mockApi.ts:68-70 | only the current user is removed, so a second logout changes nothing; the registry invariant is kept |
| App.App.constructor | frontend/src/App.tsx:9-10 | the app starts on the login page with nobody logged in |
| App.App.HandleLogin | frontend/src/App.tsx:12-15 | the given email is the logged-in user and the dashboard is shown |
| App.App.HandleRegister | frontend/src/App.tsx:17-20 | the same transition as a login, for the registered email |
| App.App.HandleLogout | frontend/src/App.tsx:22-25 | nobody is logged in and the login page is shown, whatever the state before |
| App.App.NavigateToRegister | frontend/src/App.tsx:27-29 | only the page changes, to register; the user is kept |
| App.App.NavigateToLogin | frontend/src/App.tsx:31-33 | only the page changes, to login; the user is kept |
| App.App.Rendered | frontend/src/App.tsx:35-56 | at most one page renders. Each page renders exactly when it is current. The dashboard renders only with a non-empty logged-in email, and it receives that email. |
| Dashboard.FilterListings | frontend/src/components/Dashboard.tsx:78-82 | the result is an order-preserving subsequence of the listings. A listing is in it exactly when it is loaded and its lowercased title or category contains the lowercased query. Each kept listing keeps its multiplicity. |
| Dashboard.EmptyQueryKeepsAll | frontend/src/components/Dashboard.tsx:78-82 | the empty query keeps every listing, in order |
| Dashboard.FilterIgnoresCase | frontend/src/components/Dashboard.tsx:80-81 | queries that lowercase to the same string give the same result |
| Dashboard.Matches | frontend/src/components/Dashboard.tsx:79-81 | the empty query matches every listing |
| Dashboard.MatchesLowercasedQuery | frontend/src/components/Dashboard.tsx:80-81 | lowercasing the query first does not change whether a listing matches |
| Dashboard.DashboardPage.FetchListings | frontend/src/components/Dashboard.tsx:36-43 | the page asks to log out exactly when no truthy `gator_token` is stored, and then loads nothing. Otherwise it installs both fetched lists. |
| Dashboard.DashboardPage.SetSearchQuery | frontend/src/components/Dashboard.tsx:173 | typing into the search box changes only the query; both loaded lists are kept |
| Dashboard.DashboardPage.FilteredListings | frontend/src/components/Dashboard.tsx:78-82 | the grid shows exactly the loaded listings that match the search box |
| CreateListing.CategoryName | frontend/src/components/CreateListingModal.tsx:18 | every category submits one of school, apparel, living, services or tickets |
| CreateListing.CategoryNameInjective | frontend/src/components/CreateListingModal.tsx:138-142 | different options submit different values |
| CreateListing.ChooseImage | frontend/src/components/CreateListingModal.tsx:67 | the uploaded preview wins over the URL, and the URL over the fixed default; the image is never empty |
| CreateListing.ValidateListing | frontend/src/components/CreateListingModal.tsx:51-60 | an empty title or price gives 'Please fill in title and price'. A price that does not parse or is not positive gives 'Please enter a valid price'. It is accepted exactly when neither holds, with the parsed price. |
| CreateListing.ListingForm.constructor | frontend/src/components/CreateListingModal.tsx:21-27 | a new form is cleared (category school) and holds at most one image source |
| CreateListing.ListingForm.SetFields | frontend/src/components/CreateListingModal.tsx:102-154 | typing sets title, price, category and description; the image sources are untouched and at most one of them is set |
| CreateListing.ListingForm.HandleImageChange | frontend/src/components/CreateListingModal.tsx:29-46 | no file changes nothing. A file over 5 MB raises the size alert and changes nothing. Any other file becomes the upload, its data URL the preview, and the URL is cleared. The one-image-source invariant is kept. |
| CreateListing.ListingForm.HandleUrlChange | frontend/src/components/CreateListingModal.tsx:188-192 | editing the URL drops the upload and its preview, keeping at most one image source |
| CreateListing.ListingForm.HandleSubmit | frontend/src/components/CreateListingModal.tsx:48-79 | an invalid form raises its alert and changes nothing. A valid one creates exactly one listing from the fields, with the parsed price and the chosen image, and then clears every field. |
| CreateListing.CreatedListingWellFormed | frontend/src/components/CreateListingModal.tsx:51-67 | a created listing has a non-empty title, a positive price and a non-empty image |
| LoginPage.Guard | frontend/src/components/LoginPage.tsx:26-33 | an empty field gives 'Please fill in all fields'. Otherwise a non-`@ufl.edu` email gives the UF-address message. A request is sent exactly when neither holds. |
| LoginPage.CaughtMessage | frontend/src/components/LoginPage.tsx:77-80 | an `Error` shows its own message; any other thrown value shows 'An error occurred during login' |
| LoginPage.OrLoginFailed | frontend/src/components/LoginPage.tsx:45-66 | an empty error text falls back to 'Login failed', and the message is never empty |
| LoginPage.RealOutcome | frontend/src/components/LoginPage.tsx:56-80 | the user is logged in exactly on a 2xx response, with the reported admin flag. A non-2xx response fails with its `detail` or 'Login failed'. A thrown request fails with the caught message. |
| LoginPage.LoginForm.SetCredentials | frontend/src/components/LoginPage.tsx:121-139 | typing, possible only while no login is in flight, sets the two inputs and leaves the loading flag alone |
| LoginPage.LoginForm.Begin | frontend/src/components/LoginPage.tsx:23-35 | a submit, possible only while no login is in flight, runs the guards first, and `isLoading` is set exactly when they pass |
| LoginPage.LoginForm.Finish | frontend/src/components/LoginPage.tsx:37-83 | in mock mode `onLogin` is reached exactly when the mock service accepts the credentials. In real mode the outcome is `RealOutcome`, and only a 2xx response stores its token under `access_token`. `isLoading` always ends false. |
| LoginPage.LoginForm.HandleLogin | frontend/src/components/LoginPage.tsx:23-84 | a guarded-out submit sends no request and touches neither the store nor the loading flag. Any other submit ends with `isLoading` false. Login reaches `onLogin` only with the typed email. In mock mode it does so exactly when the mock service accepts the credentials, and only then is `mock_current_user` written. In real mode the outcome is `RealOutcome`, and only a 2xx response writes its token under `access_token`. Nothing else is written. |
| LoginPage.RealLoginInvisibleToDashboard | frontend/src/components/LoginPage.tsx:71 | storing the token under `access_token` does not give the dashboard a `gator_token` |
| ProfilePage.SavedProfile | frontend/src/components/ProfilePage.tsx:25 | with nothing stored under `profile_<email>` there is no saved profile |
| ProfilePage.Loaded | frontend/src/components/ProfilePage.tsx:24-32 | with no saved profile the fields are unchanged. Otherwise phone and bio come from the saved profile, and so does the name, which falls back to 'Student Name' when empty. |
| ProfilePage.SaveThenLoad | frontend/src/components/ProfilePage.tsx:28-41 | loading after a save restores phone and bio exactly, and the name unless it was empty, in which case it loads as 'Student Name' |
| ProfilePage.SaveKeepsOthers | frontend/src/components/ProfilePage.tsx:41 | saving one user's profile changes no other user's load |
| ProfilePage.SaveLoadSave | frontend/src/components/ProfilePage.tsx:36-41 | a saved profile with a non-empty name, loaded and saved again, leaves the store as it was. An empty saved name loads as 'Student Name', so saving again changes the store. |
| ProfilePage.ProfileForm.constructor | frontend/src/components/ProfilePage.tsx:18-21 | the page starts out of edit mode with name 'Student Name' and empty phone and bio |
| ProfilePage.ProfileForm.LoadProfile | frontend/src/components/ProfilePage.tsx:24-32 | the fields become `Loaded` of the store for this user; edit mode is untouched |
| ProfilePage.ProfileForm.EditFields | frontend/src/components/ProfilePage.tsx:107-141 | typing sets name, phone and bio; edit mode is kept |
| ProfilePage.ProfileForm.SaveProfile | frontend/src/components/ProfilePage.tsx:34-45 | the whole `{name, phone, bio}` record overwrites this user's key, no other key changes, and edit mode ends |
| ProfilePage.ProfileForm.StartEditing | frontend/src/components/ProfilePage.tsx:180 | edit mode starts and the fields are kept |
| ProfilePage.ProfileForm.CancelEditing | frontend/src/components/ProfilePage.tsx:172 | edit mode ends, and neither the store nor the fields change |
| RegisterPage.HandleSubmit | frontend/src/components/RegisterPage.tsx:16-23 | `onRegister` is called exactly when the password equals its confirmation, with the email as typed. Otherwise the alert is 'Passwords do not match!'. |
| RegisterPage.OnlyEmailForwarded | frontend/src/components/RegisterPage.tsx:5-22 | the full name and the passwords themselves never affect what reaches `onRegister`; only the email does |
| Models.Database.constructor | backend/models.py:5-9 | a new database has no users and no items |
| Models.Database.AddUser | backend/models.py:7-8 | the insert fails with an integrity error exactly when the username or the email is taken. Otherwise the user is appended under the next id and the unique constraints are kept. |
| Models.Database.AddItem | backend/routes/items.py:21-23 | the item is stored under a fresh id above every existing one, and nothing else changes |
| Items.ValidateItem | backend/routes/items.py:16-19 | an item passes exactly when title, category and description are non-empty and the price is positive. A missing field gives 400 'All fields are required.'. A negative price gives 400 'Price must be a positive number.'. |
| Items.GetActiveItems | backend/routes/items.py:9-12 | exactly the stored items whose `is_active` flag is set, unchanged |
| Items.CreateItem | backend/routes/items.py:14-24 | an invalid item gives its 400 error and nothing is stored. Otherwise exactly one item, with the current user as seller, is stored under a fresh id and returned. |
| Items.DeleteItem | backend/routes/items.py:26-33 | a missing id gives 404 'Item not found' and no change; an existing one is removed, alone |
| Items.MarkItemAsSold | backend/routes/items.py:35-43 | a missing id gives 404 'Item not found' and no change. An existing item is only deactivated, and marking it again changes nothing. |
| Auth.Signup | backend/routes/auth.py:18-39 | a taken email or username gives 400 and no change. Otherwise exactly one user is added, with the hash of the password, and its public view is returned. |
| Auth.Login | backend/routes/auth.py:41-61 | an unknown username or a password that does not verify gives 401 'Incorrect username or password'. Success is a bearer token whose subject is the username, and only for a stored user whose hash verifies the password. |
| Auth.LoginAfterSignup | backend/routes/auth.py:18-61 | with a sound hash pair, logging in right after a successful signup succeeds with a token for that user |
| ItemPlan.CategoryFacts | backend/scripts/seed_db.py:20-150 | every seeded category has an image and twenty templates, each with a positive price range |
| ItemPlan.SchoolPrices | backend/scripts/seed_db.py:40-61 | the twenty `school` templates have positive price ranges |
| ItemPlan.ApparelPrices | backend/scripts/seed_db.py:62-83 | the twenty `apparel` templates have positive price ranges |
| ItemPlan.LivingPrices | backend/scripts/seed_db.py:84-105 | the twenty `living` templates have positive price ranges |
| ItemPlan.ServicesPrices | backend/scripts/seed_db.py:106-127 | the twenty `services` templates have positive price ranges |
| ItemPlan.TicketsPrices | backend/scripts/seed_db.py:128-149 | the twenty `tickets` templates have positive price ranges |
| ItemPlan.CategoriesDistinct | backend/scripts/seed_db.py:199 | the five categories are distinct |
| ItemPlan.SeedCatalogValid | backend/scripts/seed_db.py:20-199 | the script's own tables form a valid catalog: five distinct categories and five sellers, with images and positive price ranges |
| Text.EndsWith | frontend/src/components/LoginPage.tsx:30 | a string that ends with the suffix is some prefix followed by it; every string ends with the empty string |
| Text.Contains | frontend/src/components/Dashboard.tsx:80-81 | a string occurs only in strings at least as long; the empty string occurs in every string |
| Text.ToLower | frontend/src/components/Dashboard.tsx:80-81 | lowercasing keeps the length, leaves no ASCII capital and keeps every other character |
| Text.NatToString | backend/scripts/seed_db.py:218 | a counter prints as a non-empty run of decimal digits, one digit long exactly below ten |
| Text.NatToStringInjective | backend/scripts/seed_db.py:218 | different counters print differently |
| ItemPlan.SeedTitle | backend/scripts/seed_db.py:218 | the title is the template's base followed by the seed marker and the counter |
| ItemPlan.SeedTitleInjective | backend/scripts/seed_db.py:218 | two seed titles are equal only when their counters are |
| ItemPlan.TemplateAt | backend/scripts/seed_db.py:214 | index `i` uses template `i % len(templates)` |
| ItemPlan.SeedPrice | backend/scripts/seed_db.py:221-222 | the unrounded price lies within the template's range |
| ItemPlan.PlanTitlesDistinct | backend/scripts/seed_db.py:202-245 | the hundred titles the script looks for are pairwise distinct, whatever the templates |
| ItemPlan.PlannedItemShape | backend/scripts/seed_db.py:233-241 | every planned row is active and belongs to its category. It carries that category's image, is sold by the round-robin seller and is priced within its template's range. |
| ItemPlan.FlatIndex | backend/scripts/seed_db.py:202-245 | position `20 * c + i` is index `i` of category `c` |
| ItemPlan.PlanAt | backend/scripts/seed_db.py:204-245 | index `i` of category `c` is position `20 * c + i` of the plan |
| ItemPlan.PlanDistinct | backend/scripts/seed_db.py:218-230 | the plan's titles are distinct, so the existence check never meets a row the same run added |
| ItemPlan.SellerBlock | backend/scripts/seed_db.py:210 | among five consecutive indices each seller is dealt exactly one |
| ItemPlan.SellerShare | backend/scripts/seed_db.py:208-210 | round-robin deals four of a category's twenty indices to each of the five sellers |
| ItemPlan.RowSoldBy | backend/scripts/seed_db.py:210-241 | when the sellers are different users, a planned row is sold by a seller exactly when its index is dealt to that seller |
| ItemPlan.CategorySellerRowsFrom | backend/scripts/seed_db.py:208-241 | within a category, the rows a seller sells are counted by the indices dealt to it |
| ItemPlan.CategorySellerRows | backend/scripts/seed_db.py:208-241 | each seller sells four planned rows of every category |
| ItemPlan.SellerRowsSplit | backend/scripts/seed_db.py:204-241 | counting a seller's rows over two adjacent ranges adds up |
| ItemPlan.SellerRowsUpTo | backend/scripts/seed_db.py:204-241 | over the first `c` categories a seller sells `4 * c` planned rows |
| ItemPlan.PlanSellerShare | backend/scripts/seed_db.py:190-241 | when the sellers are different users, each sells four planned rows per category and twenty of the hundred |
| ItemPlan.PlanGrouped | backend/scripts/seed_db.py:204-208 | the plan lists the five categories in order, twenty positions each |
| UserSeeding.SeedUsersDistinct | backend/scripts/seed_db.py:30-197 | the seed accounts have distinct emails and usernames, and the sellers are their emails in order |
| UserSeeding.SeedUsersFrom | backend/scripts/seed_db.py:158-181 | a run only appends, at most one row per remaining account, and the only error that stops it is the integrity error |
| UserSeeding.IdsByEmail | backend/models.py:6-8 | in a table that keeps its keys, users with different emails have different ids |
| UserSeeding.SeedUsersTable | backend/scripts/seed_db.py:158-181 | a run keeps the unique constraints and every row already stored |
| UserSeeding.SeedUsersFound | backend/scripts/seed_db.py:164-178 | a successful run maps every seed email to the stored user with that email |
| UserSeeding.SeedUsersPresent | backend/scripts/seed_db.py:160-166 | when every seed email is stored, a run inserts nothing and succeeds |
| UserSeeding.SeedUsersRerun | backend/scripts/seed_db.py:153-184 | after a successful run, a second run inserts nothing and returns the same map |
| UserSeeding.SeedUsersIdempotent | backend/scripts/seed_db.py:153-184 | the user seeder is safe to run twice: the second run inserts nothing and returns the same map of the five emails |
| UserSeeding.SeedUsersFresh | backend/scripts/seed_db.py:153-184 | on an empty table the run succeeds and inserts the five accounts with ids 1 to 5 and hashed passwords |
| ItemSeeding.Step | backend/scripts/seed_db.py:224-243 | after one position its title is stored, and at most one id has been allocated |
| ItemSeeding.SeedItemsFrom | backend/scripts/seed_db.py:204-245 | a run allocates at most one id per remaining position |
| ItemSeeding.TitlesInsert | backend/scripts/seed_db.py:242 | storing a row under a fresh id adds exactly its title |
| ItemSeeding.MissingAll | backend/scripts/seed_db.py:224-243 | with none of the planned titles stored, every position counts as missing |
| ItemSeeding.MissingNone | backend/scripts/seed_db.py:224-230 | with every planned title stored, no position counts as missing |
| ItemSeeding.SeedItemsKept | backend/scripts/seed_db.py:229-243 | a run never changes a row stored before it |
| ItemSeeding.SeedItemsKeeps | backend/scripts/seed_db.py:229-243 | a run keeps every old row, allocates ids above the old ones and inserts one row per missing planned title |
| ItemSeeding.SeedItemsTitles | backend/scripts/seed_db.py:224-243 | after a run the stored titles are the old ones plus every planned title |
| ItemSeeding.SeedItemsNew | backend/scripts/seed_db.py:231-242 | every inserted row is the planned row of a position whose title was not stored before |
| ItemSeeding.SeedItemsComplete | backend/scripts/seed_db.py:229-230 | a run that finds every planned title already stored changes nothing |
| ItemSeeding.StatsSoFar | backend/scripts/seed_db.py:229-243 | after `i` indices a category's created and existing counts add up to `i` |
| ItemSeeding.SeedItemsRerun | backend/scripts/seed_db.py:187-248 | a second run over the same plan inserts nothing and reports every item as existing |
| ItemSeeding.SeedItemsIdempotent | backend/scripts/seed_db.py:187-248 | the item seeder is safe to run twice: the second run inserts nothing, and each category reports twenty existing and none created |
| ItemSeeding.SeedItemsAllNew | backend/scripts/seed_db.py:231-243 | on a table with none of the planned titles every planned row is inserted and every item is reported as created |
| ItemSeeding.SeedItemsFresh | backend/scripts/seed_db.py:187-248 | on a fresh table the run creates all hundred items and each category reports twenty created |
| ItemSeeding.StoredByInsert | backend/scripts/seed_db.py:271 | storing a row under a fresh id adds one to its seller's count and to no other seller's |
| ItemSeeding.SeedItemsFromStoredBy | backend/scripts/seed_db.py:224-243 | on a table with none of the remaining planned titles, a run adds to each seller's stored count exactly the planned rows it sells |
| ItemSeeding.SeedItemsFreshPerSeller | backend/scripts/seed_db.py:190-245 | on a table with none of the planned titles, a run stores twenty more items for each of five distinct sellers |
| ItemSeeding.MissingByCategory | backend/scripts/seed_db.py:204-243 | the missing titles of the first `c` categories are exactly what those categories count as created |
| ItemSeeding.StatsTotal | backend/scripts/seed_db.py:253-264 | the per-category created counts add up to the number of rows the run inserts |
| ItemSeeding.PlanTitleNew | backend/scripts/seed_db.py:218-230 | a planned title never repeats an earlier position's |
| ItemSeeding.UpToThenFrom | backend/scripts/seed_db.py:204-245 | building the first `n` positions and then the rest gives the whole run |
| ItemSeeding.UpToAll | backend/scripts/seed_db.py:204-245 | building position by position ends in the table of the whole run |
| ItemSeeding.UpToTitles | backend/scripts/seed_db.py:224-243 | after `n` positions the stored titles are the old ones plus the planned titles visited |
| ItemSeeding.InitialStats | backend/scripts/seed_db.py:200 | every category starts at zero created and zero existing, and no other key is present |
| ItemSeeding.Bump | backend/scripts/seed_db.py:229-243 | one more row of a category adds one to existing when the title was stored and to created otherwise |
| ItemSeeding.TallyStep | backend/scripts/seed_db.py:224-243 | one position of the tally agrees with counting against the titles stored before the run |
| ItemSeeding.TallyMatches | backend/scripts/seed_db.py:224-243 | the running tally equals counting against the titles stored before the run, because the plan's titles are distinct |
| ItemSeeding.TallyReports | backend/scripts/seed_db.py:200-243 | tallied over the whole plan, every category's statistics are the expected ones |
| ItemSeeding.SeedItemsResult | backend/scripts/seed_db.py:204-245 | after the whole plan, the loop's table is the run and its statistics are the expected ones |
| Seed.CreateSeedUsers | backend/scripts/seed_db.py:153-184 | the method's table and result are those of `SeedUsersRun` on the table it found; the unique constraints are kept and items are untouched |
| Seed.BuildSeedItem | backend/scripts/seed_db.py:210-241 | the row the loop builds at index `i` of category `c` is the planned row |
| Seed.SeedPosition | backend/scripts/seed_db.py:208-245 | one pass of the inner loop is one step of the fold, and it bumps its category's tally by whether the title was stored |
| Seed.SeedCategory | backend/scripts/seed_db.py:208-245 | the inner loop advances the counter by twenty, and the table and tally by that category's twenty positions |
| Seed.CreateSeedItems | backend/scripts/seed_db.py:187-248 | the method's table is `SeedItemsRun` on the table it found, and its statistics report, per category, what the plan predicts |
| Seed.UsersCoverSellers | backend/scripts/seed_db.py:191-211 | after a successful user run, the returned map holds every seller the item seeder deals to |
| Seed.SeedSellersDistinct | backend/scripts/seed_db.py:191-197 | after a successful user run the five sellers map to five users with different ids |
| Seed.SeedPerSeller | backend/scripts/seed_db.py:269-273 | on a database with none of the planned titles, the count the per-user summary prints grows by twenty for each seed user |
| Seed.SeedDatabase | backend/scripts/seed_db.py:277-293 | an integrity error while seeding users stops the script before any item is added. Otherwise the users and then the items are seeded as the two runs describe, and the returned statistics are exactly what the plan predicts against the items stored before. |

## Left out

- Rendering, CSS, icons, `toast` and `alert` are left out: each alert or toast is a returned message.
- The dashboard's tab state is left out. So are its hard-coded mock listings and its toast-only add, contact, edit and delete handlers. `FetchListings` installs whatever two lists it is given.
- The dashboard's `catch` branch is left out: the body of its `try` only assigns constants and cannot throw.
- The network is left out. The real-mode `fetch` and its JSON parsing are the `Reply` parameter: a thrown request, or a response with its status flag, `detail`, `access_token` and `user.is_admin`. A non-string `detail` is not modelled.
- `parseFloat` is a parameter. It returns None for NaN; whatever it returns for other input is not modelled.
- `FileReader` is modelled by the data URL carried with the picked file. The asynchronous gap between `setImageFile` and the reader's `onloadend` is not modelled: the two updates happen in one step.
- `JSON.stringify` and `JSON.parse` are left out. A stored value is the typed record itself, and a key that holds a value of the wrong shape reads as absent.
- The mock service's 500 ms delay and the interleaving of concurrent requests are left out.
- `ProfilePage.ProfileForm.CancelEditing` does not revert fields typed during editing, because the source does not either.
- Password hashing and verification (bcrypt) are a parameter pair. `Sound` is assumed only where a lemma needs it.
- Token signing and expiry are left out: a JWT is its subject.
- Items.ValidateItem: prices are Dafny reals, so a Python float NaN is not modelled. The source accepts a NaN price, because `not nan` and `nan <= 0` are both false and neither check at `backend/routes/items.py:16-19` rejects it. The model's "passes exactly when the price is positive" therefore holds only for non-NaN prices.
- Items.CreateItem: inherits the same gap from `Items.ValidateItem`. A NaN price, which the source would store, has no counterpart in the model.
- The current user that the item routes take from the bearer token is a parameter. The token check in `backend/dependencies.py:14-37` is left out, with its 401 'Could not validate credentials' for a bad token or an unknown subject.
- Request-body validation by the framework is left out. `UserCreate.email` is an `EmailStr` (`backend/models.py:14`), so a malformed email is refused with a 422 before `signup` runs; the model accepts any string there.
- The `Item` table is not defined in `backend/models.py`, and neither is the `is_admin` column of `User`. Their fields are taken from the routes and the seeding script that use them.
- Database sessions, commits and `session.refresh` are left out: each insert is visible at once. That matches the seeding script's autoflush-on-query behaviour.
- `Seed.CreateSeedItems`: it runs over a catalog parameter (categories, templates, images, sellers). `ItemPlan.SeedCatalogValid` proves the script's own tables form a valid catalog.
- `Seed.CreateSeedItems`: it requires that every seller is in the user map. The script would raise `KeyError` otherwise. `Seed.UsersCoverSellers` shows a successful user run provides that map.
- The inner loop's body is the method `Seed.SeedPosition`, and each category's pass is the method `Seed.SeedCategory`. The source writes both loops inline.
- `ItemPlan.SeedPrice`: the price is not rounded to two decimals. Its contract states the unrounded value lies in the template's range.
- The seeding script's printed summaries are left out. They are the per-category statistics that `Seed.CreateSeedItems` returns and `ItemSeeding.StatsTotal` adds up, and the per-user counts, whose growth on a fresh run `Seed.SeedPerSeller` states.
- `RegisterPage.HandleSubmit` never calls the mock or real signup, because the source does not either: it only forwards the email.
- JavaScript's `toLowerCase` folds only ASCII `A`–`Z` in this model; other Unicode case mappings are not modelled.
