# Crowd-funding back end: accounts, login and campaigns

This project models the core of the crowd-funding server's Express back end:
- account provisioning for the four roles (donor, NGO, campaigner, admin);
- password login and phone login;
- the campaign routes (create, list, get, update, soft delete);
- the SQLite schema these routes read and write.

Each module follows one part of the program:

| module | file | models |
|---|---|---|
| `Common` | common.dfy | optional values, request-body fields, `db.get`'s first-match lookup, and what a handler replies |
| `Text` | text.dfy | `path.extname`, ASCII `toLowerCase`, regular expressions `/w1\|w2\|.../`, SQLite's BINARY order, and decimal rendering of ids |
| `Uploads` | uploads.dfy | the multer configuration both route files repeat: the 5 MB limit, the filter, the disk-storage name, and the error middleware's replies |
| `Schema` | schema.dfy | the tables of server/database/init.js: row types, CHECK enumerations, defaults, NOT NULL (a row constructor that fails), validity and linkage predicates, and the campaign UPDATE statements |
| `Store` | store.dfy | the database handle as a class `Db` with one sequence per table and one AUTOINCREMENT counter per table, plus the INSERT and UPDATE statements |
| `Auth` | auth.dfy | server/routes/auth.js |
| `Campaigns` | campaigns.dfy | server/routes/campaigns.js |

## How the program is represented

**Handlers.** Every route handler except the two campaign GET routes is a module-level method that takes the `Db` object it closes over as its parameter `db`. The method's `modifies` clause names the fields of `db`, that is the tables and counters, that the route may write; the two login routes write nothing and have none. The two read-only campaign routes are functions of the campaigns table `db.campaigns`: `Campaigns.ListCampaigns` (GET /) and `Campaigns.GetCampaign` (GET /:id).

**Inputs.** An absent body field is `None`, so it reaches SQLite as NULL.

**Outcomes.** Every handler except the listing replies with a `Response`. The listing's `res.json(campaigns)` is an implicit 200, and `Campaigns.ListCampaigns` returns the row sequence it sends. A `Response` is one of:
- `Ok(status, body)` and `Err(status, error)` are `res.status(s).json(...)`.
- `NoResponse(reason)` stands for a handler that throws inside a database callback and never answers.

**Behaviour kept as written:**
- **No rollback.** The account INSERT and the profile INSERT are separate statements. When the profile INSERT fails, the users row stays behind without a profile.
- **No reply after NGO, campaigner and admin signup.** These three routes build their reply from the variables `user` and `profile`, which they never declare. The inserts happen, but the handler throws a ReferenceError.
- **Absent password.** bcrypt rejects an absent password in `hash` and in `compare`. Nothing catches the rejection, so no reply is sent.
- **Campaign columns missing from the DDL.** The campaign INSERT names `currentAmount`, `location`, `startDate` and `endDate`; the UPDATE names `location`, `startDate` and `endDate`. The campaigns table of init.js has none of these columns. The campaign row type holds both the DDL's columns and these four, and the routes are modelled as writing that record. SQLite would refuse both statements against the table as created.

**Further behaviour of the code:**
- **Signup is not atomic.** A failed profile INSERT leaves the users row behind, an account without a profile (`Auth.SignupDonor`, `Auth.SignupNgo`, `Auth.SignupCampaigner`).
- **Login without a profile.** An account without a profile row logs in, and its token carries an undefined profile (`Auth.Login`, `Auth.LoginProfile`).
- **Refused uploads.** The filter's refusal is a plain Error, which server/server.js answers with 500. server/server.js answers every MulterError with 400; of these the model has the size limit (`Uploads.Receive`).
- **Bad admin access code.** It is answered with 400 (`Auth.SignupAdmin`).
- **Signup reply.** Only the donor route can reply 201 with a token; the other three never reply (`Auth.SignupNgo`, `Auth.SignupCampaigner`, `Auth.SignupAdmin`).

**Invariants.** The DDL enforces AUTOINCREMENT ids and the UNIQUE email (`Store.Db.Valid`). SQLite enforces neither the foreign key from a profile to its account nor one profile per account: foreign keys are off and `userId` is not UNIQUE. The signup routes keep both anyway. `Store.Db.Linked` states these two properties, and every signup method preserves it.

## Model

| member | source | states |
|---|---|---|
| Common.First | server/routes/auth.js:390 | the position `db.get` finds: the first row satisfying the WHERE clause, no earlier row satisfies it, and None exactly when no row does |
| Text.Contains | server/routes/auth.js:27-29 | a one-word regular expression tests true exactly when the word occurs at some position of the string |
| Text.MatchesAny | server/routes/auth.js:27-29 | the alternation `/w1\|w2\|.../` tests true exactly when one of the words occurs in the string |
| Text.ToLower | server/routes/auth.js:28 | `toLowerCase` keeps the length, maps every character through the ASCII lower-case mapping, and leaves no upper-case ASCII letter |
| Text.ExtName | server/routes/auth.js:28 | `path.extname` is empty or starts with '.', holds no further '.' or '/', and is a proper suffix of the last path component |
| Text.ExtNameOfFileName | server/routes/auth.js:17 | a name `stem.ext` without directories has extension `.ext` |
| Text.ExtNameWithoutDot | server/routes/campaigns.js:14 | a name with neither '.' nor '/' has no extension |
| Text.StrLeTotal | server/routes/campaigns.js:88 | any two createdAt strings are ordered one way or the other under BINARY collation |
| Text.StrLeTransitive | server/routes/campaigns.js:88 | BINARY collation order is transitive |
| Text.Decimal | server/routes/auth.js:475 | an id renders as at least one decimal digit, all digits, with no leading zero |
| Text.DecimalRoundTrip | server/routes/auth.js:475 | reading the rendered digits back gives the id |
| Uploads.FileFilter | server/routes/auth.js:26-36 | a file passes exactly when some word of the filter occurs at some position of its lower-cased extension and some word occurs at some position of its mimetype, as in server/routes/campaigns.js:21-29 |
| Uploads.MatchesAnyOccurs | server/routes/auth.js:27-29 | an alternation tests true exactly when one of its words occurs at some position of the string |
| Uploads.FileFilterAccepts | server/routes/auth.js:26-31 | a name `stem.ext` whose lower-cased `.ext` and whose mimetype each contain a word passes the filter |
| Uploads.AcceptedExtensionLength | server/routes/auth.js:27-29 | when no word holds a '.' and every word has at least n letters, an accepted name has an extension longer than n characters |
| Uploads.Receive | server/routes/auth.js:21-37 | a missing file passes as null; a file is received exactly when the filter accepts it and it is within 5 MB; a filter refusal is a 500 with the filter's message (server/server.js:97-100); an oversize file is the 400 "File size too large" (server/server.js:90-92); a received file is stored as the stem plus the original extension |
| Uploads.StoredNameKeepsExtension | server/routes/auth.js:15-18 | a stored name, the stem without '.' or '/' plus the original extension, has that same extension |
| Uploads.StoredNamePassesFilter | server/routes/campaigns.js:13-29 | a file the filter accepted is stored under a name the same filter accepts |
| Schema.ParseRole | server/database/init.js:24 | the CHECK on users.userType accepts exactly the names of the four roles and maps each back to its name |
| Schema.ParseOrganizer | server/database/init.js:98 | the CHECK on campaigns.organizerType accepts exactly "ngo" and "campaigner" |
| Schema.NewUser | server/database/init.js:20-28 | a users row exists exactly when email is given; it carries the given values and isVerified 0 |
| Schema.NewDonor | server/database/init.js:33-40 | a donors row exists exactly when fullName is given, and it carries the given values |
| Schema.NewNgo | server/database/init.js:45-58 | an ngos row exists exactly when ngoName, state, city and registrationNumber are given; it carries the given values and isApproved 0 |
| Schema.NewCampaigner | server/database/init.js:63-75 | a campaigners row exists exactly when fullName, phone, city, state, panNumber and idType are given; it carries the given values and isApproved 0 |
| Schema.NewAdmin | server/database/init.js:80-86 | an admins row exists exactly when accessCode is given, and it carries the given values |
| Schema.NewCampaign | server/routes/campaigns.js:46-63 | a campaigns row exists exactly when title, description, targetAmount and category are given and the organizer type passes its CHECK (server/database/init.js:91-104); it carries the given values, raised and current amounts 0, isActive 1, and createdAt equal to updatedAt |
| Schema.NewDonation | server/database/init.js:109-119 | a donations row exists exactly when amount is given and status is absent or one of the three allowed values; status defaults to pending |
| Schema.NewRevision | server/routes/campaigns.js:146-168 | the SET list can be applied exactly when title, description, targetAmount and category are given, and it holds the eight values given |
| Schema.Revise | server/routes/campaigns.js:146-157 | an updated row takes the SET list's eight values and updatedAt; id, organizer, isActive, createdAt and the amounts are kept |
| Schema.SoftDeleted | server/routes/campaigns.js:183 | the soft delete keeps the table's length and deactivates exactly the rows its WHERE clause matches |
| Schema.NoChangesNoEffect | server/routes/campaigns.js:183-191 | `this.changes` is 0 exactly when no row is owned by the caller under that id, and then the table is unchanged |
| Schema.Changes | server/routes/campaigns.js:189 | `this.changes` of the soft delete is at most the number of rows |
| Schema.ChangesPositive | server/routes/campaigns.js:189 | `this.changes` is positive exactly when some row is the campaign with that id owned by the caller |
| Schema.SoftDeleteIdempotent | server/routes/campaigns.js:183-192 | a second soft delete changes nothing more and counts as many matching rows, so the owner's repeated DELETE succeeds again |
| Schema.ChangesStep | server/routes/campaigns.js:189 | counting one more row adds one exactly when the WHERE clause matches that row |
| Schema.SoftDeletedValid | server/database/init.js:91-92 | the soft delete keeps every id, so the table's AUTOINCREMENT ids stay valid |
| Schema.UsersAppend | server/database/init.js:20-22 | a users row with the next id and a new email keeps ids and emails distinct and below the next id |
| Schema.ProfileIdsAppend | server/database/init.js:33-34 | a profile row with the next id keeps that table's ids distinct and below the next id |
| Schema.CampaignsAppend | server/database/init.js:91-92 | a campaign row with the next id keeps campaign ids distinct and below the next id |
| Schema.LinkedAfterNewUser | server/database/init.js:39 | adding an account keeps every profile linked to its account |
| Schema.LinkedAppend | server/database/init.js:35-39 | a profile row for an account of the table's role that has no row yet keeps the table linked, with one row per account |
| Schema.FreshIdUnlinked | server/routes/auth.js:200 | a linked profile table only refers to ids below the next users id, so the `lastID` of a new account has no profile yet |
| Schema.OneProfilePerAccount | server/database/init.js:35-85 | linked profile tables of two different roles never refer to the same account |
| Store.Db.constructor | server/database/init.js:17-120 | a fresh database has every table empty and all six AUTOINCREMENT counters at 1, so the first row of each table gets id 1, and is valid and linked |
| Store.Db.InsertUser | server/routes/auth.js:193-198 | the INSERT appends the row and advances the counter exactly when email is given and not yet taken; otherwise nothing changes; validity and linkage are kept |
| Store.Db.InsertDonor | server/routes/auth.js:203-208 | the INSERT appends the donors row exactly when fullName is given; otherwise nothing changes |
| Store.Db.InsertNgo | server/routes/auth.js:264-270 | the INSERT appends the ngos row exactly when its NOT NULL values are given; otherwise nothing changes |
| Store.Db.InsertCampaigner | server/routes/auth.js:315-321 | the INSERT appends the campaigners row exactly when its NOT NULL values are given; otherwise nothing changes |
| Store.Db.InsertAdmin | server/routes/auth.js:367-372 | the INSERT appends the admins row exactly when accessCode is given; otherwise nothing changes |
| Store.Db.InsertCampaign | server/routes/campaigns.js:46-63 | the INSERT appends the row `Schema.NewCampaign` builds and returns its id, or fails and changes nothing |
| Store.Db.ReviseCampaigns | server/routes/campaigns.js:146-157 | the UPDATE revises every row with that id and keeps every other row |
| Store.Db.DeactivateCampaigns | server/routes/campaigns.js:182-184 | the new table is `Schema.SoftDeleted` of the old one, and the count returned is the number of rows the WHERE clause matched |
| Auth.SignupStem | server/routes/auth.js:16-17 | the stored name of a signup upload starts with the form field's name |
| Auth.SignupFileFilter | server/routes/auth.js:26-36 | the signup filter accepts only names whose extension is longer than three characters (a '.' and a word of /jpeg\|jpg\|png\|pdf/) |
| Auth.ReceiveSignupFile | server/routes/auth.js:20-37 | `upload.single` of the signup routes (server/routes/auth.js:232, 283) refuses with the filter's 500 or the size limit's 400 only, and a received file's stored name starts with the form field's name |
| Auth.SignupStoredNamePassesFilter | server/routes/auth.js:15-37 | a certificate or id document the filter accepted is stored under a name the filter accepts |
| Auth.NoExtensionRefused | server/routes/auth.js:26-35 | a file whose name has no '.' in its last component is refused, whatever its mimetype |
| Auth.UpperCaseExtensionAccepted | server/routes/auth.js:28 | the extension is lower-cased before the test, so ".JPG" passes with any accepted mimetype |
| Auth.ExtensionAndMimetypeUnpaired | server/routes/auth.js:27-31 | extension and mimetype are tested separately, so a ".pdf" name sent as image/png passes |
| Auth.GenerateToken | server/routes/auth.js:43-64 | the token and the user object carry the account's id, email and role name with the profile, and the token expires after 24 hours |
| Auth.TokenIgnoresPassword | server/routes/auth.js:43-64 | the stored hash and the verification flag never reach the token |
| Auth.AccountStep | server/routes/auth.js:181-198 | a taken email is a 400; otherwise an absent password leaves no reply; otherwise an absent email is "Failed to create user"; an account is created exactly when the email is given and free and the password is given, and it gets the next id |
| Auth.CreateAccount | server/routes/auth.js:181-200 | the first half of a signup writes only when `AccountStep` creates; the new account is appended with the hashed password, and no profile row refers to it yet |
| Auth.FreshAccountUnlinked | server/routes/auth.js:200 | in a linked database no profile of any role refers to the next users id |
| Auth.AddDonorProfile | server/routes/auth.js:203-220 | without fullName the reply is "Failed to create donor profile" and nothing changes; otherwise the donors row is appended and the reply is 201 with the token of the new account carrying that row |
| Auth.SignupDonor | server/routes/auth.js:176-229 | the account step decides the early replies; a failed profile INSERT leaves the new account without a profile; success is 201 with the token |
| Auth.AddNgoProfile | server/routes/auth.js:264-273 | the ngos row is appended when its NOT NULL values are given, and then no reply follows; otherwise "Failed to create NGO profile" and nothing changes |
| Auth.SignupNgo | server/routes/auth.js:232-280 | the account step decides the early replies; the certificate's stored name is the ngos row's certificateUrl; the route never answers with a token |
| Auth.AddCampaignerProfile | server/routes/auth.js:315-324 | the campaigners row is appended when its NOT NULL values are given, and then no reply follows; otherwise "Failed to create campaigner profile" and nothing changes |
| Auth.SignupCampaigner | server/routes/auth.js:283-331 | the account step decides the early replies; the id document's stored name is govtIdUrl; the route never answers with a token |
| Auth.AddAdminProfile | server/routes/auth.js:367-375 | the admins row stores the access code and enable2FA as 1 or 0, and then no reply follows |
| Auth.SignupAdmin | server/routes/auth.js:334-382 | an access code other than ADMIN2024 is a 400 with nothing changed; otherwise the account step, then the admins row, and no token reply |
| Auth.LoginProfile | server/routes/auth.js:408-425 | the profile query gives the selected columns of a row of the role's table that refers to the account, and is absent exactly when no row does |
| Auth.Login | server/routes/auth.js:385-441 | no account with that email and role gives "Invalid credentials"; an absent password leaves no reply; the login succeeds exactly when the hashed password matches the stored hash, and it answers with the token of that account and its profile |
| Auth.LoginProfileOfLinkedDonor | server/routes/auth.js:409-410 | in a linked database a donor's login profile is the full name of its own row |
| Auth.LoginProfileOfLinkedNgo | server/routes/auth.js:412-413 | in a linked database an NGO's login profile is its own name and approval flag |
| Auth.Credentials | server/routes/auth.js:390 | a users row matches the login query only when email and userType were sent and userType names the row's role |
| Auth.DonorSignupThenLogin | server/routes/auth.js:176-229 | a donor signup with an unused email replies 201, and a login with the same email and password then answers 200 with the token of the new account carrying the donor's full name (server/routes/auth.js:385-441) |
| Auth.NgoSignupThenLogin | server/routes/auth.js:232-280 | an NGO signup with an unused email and every NOT NULL column sends no reply, yet a later login answers 200 with a token whose profile is the NGO's name and isApproved 0 (server/routes/auth.js:411-413) |
| Auth.SecondSignupRefused | server/routes/auth.js:181-186 | after a donor signup with an email, a campaigner signup with the same email is the 400 "User already exists with this email" and leaves the users and campaigners tables as the first signup left them |
| Auth.PhoneRole | server/routes/auth.js:449-461 | phone login is offered exactly to donors, NGOs and campaigners, never to admins |
| Auth.PhoneAccount | server/routes/auth.js:463-469 | the join finds an account whose profile row has that phone and whose role matches, and none exactly when no such account exists |
| Auth.TempToken | server/routes/auth.js:475 | the temporary token starts with "temp-" |
| Auth.TempTokenIdentifiesAccount | server/routes/auth.js:475 | different accounts get different temporary tokens |
| Auth.LoginOtp | server/routes/auth.js:444-481 | another role is "Phone login not available"; otherwise the reply is "OTP sent successfully" with the temporary token of an account owning that phone exactly when one exists, and "User not found" when none does |
| Campaigns.ImageStoredNamePassesFilter | server/routes/campaigns.js:13-29 | a campaign image the filter accepted is stored, under the time in milliseconds plus its extension, with a name the filter accepts |
| Campaigns.ImageFileFilter | server/routes/campaigns.js:21-29 | the campaign image filter accepts only names whose extension is longer than three characters (a '.' and a word of /jpeg\|jpg\|png\|gif/) |
| Campaigns.ReceiveImage | server/routes/campaigns.js:9-30 | `upload.single('image')` (server/routes/campaigns.js:33, 121) refuses with the filter's 500 or the size limit's 400 only, and a received image is stored as decimal digits followed by its original extension |
| Campaigns.PdfOnlyAtSignup | server/routes/campaigns.js:22 | a ".pdf" name is never a campaign image, whatever its mimetype, but is a valid signup document (server/routes/auth.js:27) |
| Campaigns.GifOnlyForCampaigns | server/routes/campaigns.js:22 | a ".gif" sent as image/gif is a valid campaign image but never a signup document (server/routes/auth.js:27) |
| Campaigns.ImageUrl | server/routes/campaigns.js:44 | the image URL is present exactly when a file was stored, and is "/uploads/" followed by its name |
| Campaigns.CreateCampaign | server/routes/campaigns.js:33-74 | a missing NOT NULL value or a caller role other than ngo or campaigner is "Failed to create campaign" with nothing changed; otherwise the row with the caller as organizer is appended and the reply is 201 with its id |
| Campaigns.ActiveRows | server/routes/campaigns.js:87 | the rows kept are exactly the table's active rows |
| Campaigns.InsertNewestFirst | server/routes/campaigns.js:88 | inserting a row into a newest-first sequence keeps it newest-first and adds exactly that row |
| Campaigns.SortNewestFirst | server/routes/campaigns.js:88 | the sort returns a newest-first permutation of its input |
| Campaigns.ListCampaigns | server/routes/campaigns.js:77-95 | the listing is a permutation of the active rows, every row in it is active, and it is ordered by createdAt descending |
| Campaigns.GetCampaign | server/routes/campaigns.js:98-118 | the reply is 200 with an active row of that id exactly when one exists; otherwise "Campaign not found" with 404 |
| Campaigns.ListedCampaignsFound | server/routes/campaigns.js:87-108 | every listed campaign is what GET /:id returns for its id |
| Campaigns.CreatedCampaignVisible | server/routes/campaigns.js:51 | a created campaign is at once found by GET /:id and listed |
| Campaigns.UpdateCampaign | server/routes/campaigns.js:121-178 | without a row owned by the caller under that id the reply is 403 with nothing changed; otherwise a missing NOT NULL value is "Failed to update campaign" with nothing changed, and otherwise exactly the owned row is revised, keeping its old image when no new one was sent |
| Campaigns.DeleteCampaign | server/routes/campaigns.js:181-195 | the table becomes its soft-deleted form; 403 when no row matched, 200 otherwise |
| Campaigns.DeletedCampaignHidden | server/routes/campaigns.js:108-115 | after the owner's delete, GET /:id answers 404 for that id |
| Campaigns.DeletedCampaignUnlisted | server/routes/campaigns.js:87 | after a delete no row of the caller under that id is listed, and every other listed campaign still is |

## Left out

- The legacy `/signup` and `/signin` routes (server/routes/auth.js:73-173) are not part of this model.
- The `/donors` listing (server/routes/auth.js:484-497) is not part of this model.
- server/server.js and server/src/index.ts are not part of this model. The one exception is the error middleware's answer to a refused upload, which `Uploads.Receive` states.
- Uploads.Receive: of the MulterErrors that server/server.js:90-95 answers with 400, only the file-size limit is modelled; an unexpected form field or another multer limit is not.
- An uncaught ReferenceError thrown in a sqlite3 callback (server/routes/auth.js:272, 323, 374) and the unhandled bcrypt rejection (server/routes/auth.js:190, 399) terminate the Node process under its default settings. The model records such a request as `NoResponse`; the process exit and the refusal of every later request are not modelled.
- bcrypt is an uninterpreted function `hash`. A password matches exactly when its hash equals the stored hash. Salting and the cost factor are not modelled.
- A JWT is the record of its claims and its lifetime. Signing, the secret and expiry checking are not modelled.
- multer's storage writes files to disk, which is not modelled. Only the filter, the size limit and the generated name are.
  - The clock and the random number become parameters.
  - The NGO, campaigner and campaign handlers take the stored file name as an input.
- The authentication middleware is not modelled. The protected campaign routes take its result, `req.user`, as a `Caller`.
- Database errors other than NOT NULL and CHECK violations are not modelled: a failed connection, a locked database, the "Database error" replies. Neither are the handlers' `catch` blocks that answer "Server error".
- Every statement runs to completion before the next request, so concurrent requests are not modelled. In particular, two signups racing on one email are not.
- DECIMAL(10,2) amounts are integers.
- Timestamps are strings given as parameters. createdAt and updatedAt of users are not kept, because no modelled route reads them.
- The `organizerName` column joined into the campaign listing and lookup (server/routes/campaigns.js:79-86, 100-107) is not modelled. The rows are returned without it.
- Campaigns.CreateCampaign: the INSERT names columns the campaigns table lacks. The model writes the record the route builds instead of the failure SQLite would report.
- Campaigns.UpdateCampaign: the same holds for the UPDATE.
- Campaigns.UpdateCampaign: the SET list's `WHERE id = ?` revises every row with that id. Since ids are unique, the contract states the change to the single owned row.
- The donor route's "Failed to fetch ... after creation" replies (server/routes/auth.js:212-218) cannot occur, because both rows were just written. The model proves this instead of modelling them.
- The admin route's "Failed to create admin profile" (server/routes/auth.js:370-372) cannot occur either, because the access code was checked first.
- The login switch's "Invalid user type" (server/routes/auth.js:421-422) cannot occur, because the matched account's userType passed the users CHECK.
- Auth.LoginOtp: the contract says some account owning the phone is named. It does not say which one SQLite's join returns first, because the join order is not fixed.
- Path parameters such as `req.params.id` are integers. SQLite's conversion of the text parameter is not modelled.
- `toLowerCase` is modelled on ASCII letters only, and `path.extname` on POSIX paths.
