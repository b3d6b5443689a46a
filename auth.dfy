/** server/routes/auth.js: the upload configuration of the signup forms, the
    token builder, the four role-specific signup routes, password login and
    phone login. bcrypt is the function `hash` (a password matches a stored
    hash when hashing it gives that hash); a JWT is the record of its claims. */
module Auth {
  import opened Common
  import opened Text
  import opened Schema
  import opened Store
  import opened Uploads

  // ---------------------------------------------------------------------------
  // Uploads of the signup forms (the NGO certificate, the campaigner's id)

  /** The alternatives of /jpeg|jpg|png|pdf/. */
  const SignupFileTypes: seq<string> := ["jpeg", "jpg", "png", "pdf"]

  const SignupRejection: string := "Only JPEG, PNG, and PDF files are allowed"

  /** The signup `fileFilter`: an accepted name has an extension of at least
      three letters after its '.'. */
  function SignupFileFilter(originalname: string, mimetype: string): (ok: bool)
    ensures ok ==> |ExtName(originalname)| > 3
  {
    AcceptedExtensionLength(originalname, mimetype, SignupFileTypes, 3);
    FileFilter(originalname, mimetype, SignupFileTypes)
  }

  /** The disk-storage name before the extension: the form field, the time in
      milliseconds and a random number of at most 10^9, joined by '-'. */
  function SignupStem(fieldname: string, now: nat, rand: nat): (stem: string)
    ensures |stem| > |fieldname| && stem[..|fieldname|] == fieldname
  {
    fieldname + "-" + Decimal(now) + "-" + Decimal(rand)
  }

  /** `upload.single(fieldname)` of the signup routes. */
  function ReceiveSignupFile(fieldname: string, file: Option<Upload>, now: nat, rand: nat): (r: Received)
    ensures r.Refused? ==> r == Refused(500, SignupRejection) || r == Refused(400, TooLarge)
    ensures file.Some? && r.Received? ==>
              && r.filename.Some?
              && |r.filename.value| > |fieldname| && r.filename.value[..|fieldname|] == fieldname
  {
    var stem := SignupStem(fieldname, now, rand);
    if file.Some? then
      StoredNameParts(stem, ExtName(file.value.originalname));
      Receive(file, SignupFileTypes, SignupRejection, stem)
    else Receive(file, SignupFileTypes, SignupRejection, stem)
  }

  /** The stored certificate or id document keeps the extension the filter
      approved: its name passes the filter too. */
  lemma SignupStoredNamePassesFilter(fieldname: string, file: Option<Upload>, now: nat, rand: nat)
    requires forall j :: 0 <= j < |fieldname| ==> fieldname[j] != '/' && fieldname[j] != '.'
    requires file.Some? && ReceiveSignupFile(fieldname, file, now, rand).Received?
    ensures SignupFileFilter(ReceiveSignupFile(fieldname, file, now, rand).filename.value, file.value.mimetype)
  {
    var stem := SignupStem(fieldname, now, rand);
    var a, b := Decimal(now), Decimal(rand);
    assert forall j :: 0 <= j < |stem| ==> stem[j] != '/' && stem[j] != '.' by {
      forall j | 0 <= j < |stem| ensures stem[j] != '/' && stem[j] != '.' {
        if j < |fieldname| {
          assert stem[j] == fieldname[j];
        } else if j == |fieldname| {
          assert stem[j] == '-';
        } else if j <= |fieldname| + |a| {
          assert stem[j] == a[j - |fieldname| - 1];
        } else if j == |fieldname| + |a| + 1 {
          assert stem[j] == '-';
        } else {
          assert stem[j] == b[j - |fieldname| - |a| - 2];
        }
      }
    }
    StoredNamePassesFilter(file, SignupFileTypes, SignupRejection, stem);
  }

  /** A name whose last component has no '.' has no extension, so the filter
      refuses it whatever its mimetype says. */
  lemma {:induction false} NoExtensionRefused(originalname: string, mimetype: string)
    requires forall j :: 0 <= j < |BaseName(originalname)| ==> BaseName(originalname)[j] != '.'
    ensures !SignupFileFilter(originalname, mimetype)
  {
    var e := ToLower(ExtName(originalname));
    assert e == [];
    forall k | 0 <= k < |SignupFileTypes|
      ensures !Contains(e, SignupFileTypes[k])
    {
      assert |SignupFileTypes[k]| > 0;
    }
  }

  /** The extension is lower-cased before the test: a name ending in ".JPG"
      passes with any accepted mimetype. */
  lemma UpperCaseExtensionAccepted(stem: string, mimetype: string)
    requires stem != [] && forall j :: 0 <= j < |stem| ==> stem[j] != '/'
    requires MatchesAny(mimetype, SignupFileTypes)
    ensures SignupFileFilter(stem + ".JPG", mimetype)
  {
    UpperJpgMatches();
    FileFilterAccepts(stem, "JPG", mimetype, SignupFileTypes);
    assert stem + "." + "JPG" == stem + ".JPG";
  }

  /** Extension and mimetype are tested separately: a ".pdf" name sent as
      image/png passes. */
  lemma ExtensionAndMimetypeUnpaired(stem: string)
    requires stem != [] && forall j :: 0 <= j < |stem| ==> stem[j] != '/'
    ensures SignupFileFilter(stem + ".pdf", "image/png")
  {
    PdfMatches();
    PngMimetypeMatches();
    FileFilterAccepts(stem, "pdf", "image/png", SignupFileTypes);
    assert stem + "." + "pdf" == stem + ".pdf";
  }

  lemma UpperJpgMatches()
    ensures MatchesAny(ToLower(".JPG"), SignupFileTypes)
  {
    var e := ToLower(".JPG");
    assert e == ".jpg" by {
      assert e[0] == LowerChar('.') && e[1] == LowerChar('J') && e[2] == LowerChar('P') && e[3] == LowerChar('G');
    }
    assert OccursAt(e, "jpg", 1);
    assert Contains(e, SignupFileTypes[1]);
  }

  lemma PdfMatches()
    ensures MatchesAny(ToLower(".pdf"), SignupFileTypes)
  {
    var e := ToLower(".pdf");
    assert e == ".pdf" by {
      assert e[0] == LowerChar('.') && e[1] == LowerChar('p') && e[2] == LowerChar('d') && e[3] == LowerChar('f');
    }
    assert OccursAt(e, "pdf", 1);
    assert Contains(e, SignupFileTypes[3]);
  }

  lemma PngMimetypeMatches()
    ensures MatchesAny("image/png", SignupFileTypes)
  {
    assert OccursAt("image/png", "png", 6);
    assert Contains("image/png", SignupFileTypes[2]);
  }

  // ---------------------------------------------------------------------------
  // Tokens

  /** The profile part of a token: the row or the columns the route selected,
      or `Absent` when the SELECT found no row (`undefined` in the source). */
  datatype Profile =
    | DonorRecord(row: ProfileRow<DonorAttrs>)
    | DonorSummary(fullName: string)
    | NgoSummary(ngoName: string, isApproved: int)
    | CampaignerSummary(fullName: string, isApproved: int)
    | AdminSummary(enable2FA: int)
    | Absent

  datatype Claims = Claims(id: nat, email: string, userType: string, profile: Profile)

  /** A signed token, as the claims it carries and its lifetime. */
  datatype Jwt = Jwt(claims: Claims, expiresIn: string)

  /** The `user` object of a token response. */
  datatype PublicUser = PublicUser(id: nat, email: string, userType: string, profile: Profile)

  datatype TokenInfo = TokenInfo(token: Jwt, user: PublicUser)

  const TokenLifetime: string := "24h"

  /** `generateToken(user, profile)`: the user object carries the account's
      id, email and role name with the profile, the token signs the same four
      claims and expires after 24 hours. */
  function GenerateToken(user: UserRow, profile: Profile): (t: TokenInfo)
    ensures t.user.id == user.id && t.user.email == user.email && t.user.profile == profile
    ensures ParseRole(t.user.userType) == Some(user.userType)
    ensures t.token.claims == Claims(t.user.id, t.user.email, t.user.userType, t.user.profile)
    ensures t.token.expiresIn == "24h"
  {
    var claims := Claims(user.id, user.email, RoleName(user.userType), profile);
    TokenInfo(Jwt(claims, TokenLifetime), PublicUser(user.id, user.email, RoleName(user.userType), profile))
  }

  /** The password hash never reaches a token: accounts that differ only in
      their stored hash (or verification flag) get the same token. */
  lemma TokenIgnoresPassword(user: UserRow, other: UserRow, profile: Profile)
    requires other.id == user.id && other.email == user.email && other.userType == user.userType
    ensures GenerateToken(other, profile) == GenerateToken(user, profile)
  {
  }

  // ---------------------------------------------------------------------------
  // Signup

  const UserExists: string := "User already exists with this email"
  const CreateUserFailed: string := "Failed to create user"
  /** bcrypt's rejection of an absent password, which no handler catches. */
  const HashRejected: string := "Illegal arguments: undefined, number"
  /** The ReferenceError the NGO, campaigner and admin routes throw after their inserts. */
  const UndeclaredUser: string := "ReferenceError: user is not defined"
  const AdminAccessCode: string := "ADMIN2024"

  /** The common first half of every signup: the new account's id, or the
      reply that ends the route before a profile row is written. */
  datatype Created = Created(id: nat) | Halted(reply: Response<TokenInfo>)

  /** What the duplicate check, the password hash and the users INSERT of
      every signup route decide: a taken email is refused; an absent password
      makes bcrypt reject; an absent email makes the INSERT fail (NOT NULL);
      otherwise the account gets the next users id. */
  function AccountStep(users: seq<UserRow>, nextId: nat, email: Field, password: Field): (c: Created)
    ensures email.Some? && EmailTaken(users, email.value) ==> c == Halted(Err(400, UserExists))
    ensures !(email.Some? && EmailTaken(users, email.value)) && password.None? ==>
              c == Halted(NoResponse(HashRejected))
    ensures email.None? && password.Some? ==> c == Halted(Err(500, CreateUserFailed))
    ensures c.Created? <==> email.Some? && !EmailTaken(users, email.value) && password.Some?
    ensures c.Created? ==> c.id == nextId
  {
    if email.Some? && EmailTaken(users, email.value) then Halted(Err(400, UserExists))
    else if password.None? then Halted(NoResponse(HashRejected))
    else if email.None? then Halted(Err(500, CreateUserFailed))
    else Created(nextId)
  }

  /** The first half of every signup route, as `AccountStep` decides it. Only
      a created account writes, and it has no profile row yet. */
  method CreateAccount(db: Db, hash: string -> string, email: Field, password: Field, role: Role)
    returns (c: Created)
    requires db.Valid() && db.Linked()
    modifies db`users, db`nextUserId
    ensures db.Valid() && db.Linked()
    ensures c == AccountStep(old(db.users), old(db.nextUserId), email, password)
    ensures c.Halted? ==> db.users == old(db.users) && db.nextUserId == old(db.nextUserId)
    ensures c.Created? ==>
              && db.nextUserId == old(db.nextUserId) + 1
              && db.users == old(db.users) + [UserRow(c.id, email.value, hash(password.value), role, 0)]
              && HasAccount(db.users, c.id, role)
              && (forall i :: 0 <= i < |db.donors| ==> db.donors[i].userId != c.id)
              && (forall i :: 0 <= i < |db.ngos| ==> db.ngos[i].userId != c.id)
              && (forall i :: 0 <= i < |db.campaigners| ==> db.campaigners[i].userId != c.id)
              && (forall i :: 0 <= i < |db.admins| ==> db.admins[i].userId != c.id)
  {
    // SELECT email FROM users WHERE email = ?
    if email.Some? && EmailTaken(db.users, email.value) {
      return Halted(Err(400, UserExists));
    }
    if password.None? {
      return Halted(NoResponse(HashRejected));
    }
    FreshAccountUnlinked(db);
    var id := db.InsertUser(email, hash(password.value), role);
    if id.None? {
      return Halted(Err(500, CreateUserFailed));
    }
    assert db.users[|db.users| - 1].id == id.value;
    c := Created(id.value);
  }

  /** The next users id is above every account a profile row refers to. */
  lemma FreshAccountUnlinked(db: Db)
    requires db.Valid() && db.Linked()
    ensures forall i :: 0 <= i < |db.donors| ==> db.donors[i].userId < db.nextUserId
    ensures forall i :: 0 <= i < |db.ngos| ==> db.ngos[i].userId < db.nextUserId
    ensures forall i :: 0 <= i < |db.campaigners| ==> db.campaigners[i].userId < db.nextUserId
    ensures forall i :: 0 <= i < |db.admins| ==> db.admins[i].userId < db.nextUserId
  {
    FreshIdUnlinked(db.donors, db.users, db.nextUserId, Donor);
    FreshIdUnlinked(db.ngos, db.users, db.nextUserId, Ngo);
    FreshIdUnlinked(db.campaigners, db.users, db.nextUserId, Campaigner);
    FreshIdUnlinked(db.admins, db.users, db.nextUserId, Admin);
  }

  /** The profile half of POST /signup/donor, for the account just created:
      the donors row (fullName NOT NULL), then the token of the account
      carrying that row, both read back by id. */
  method AddDonorProfile(db: Db, fullName: Field, phone: Field, panCard: Field) returns (res: Response<TokenInfo>)
    requires db.Valid() && db.Linked()
    requires |db.users| > 0 && db.users[|db.users| - 1].userType == Donor
    requires forall i :: 0 <= i < |db.donors| ==> db.donors[i].userId != db.users[|db.users| - 1].id
    modifies db`donors, db`nextDonorId
    ensures db.Valid() && db.Linked()
    ensures fullName.None? ==> res == Err(500, "Failed to create donor profile") && unchanged(db)
    ensures fullName.Some? ==>
              var user := db.users[|db.users| - 1];
              var row := ProfileRow(old(db.nextDonorId), user.id, DonorAttrs(fullName.value, phone, panCard));
              && db.donors == old(db.donors) + [row] && db.nextDonorId == old(db.nextDonorId) + 1
              && res == Ok(201, GenerateToken(user, DonorRecord(row)))
  {
    var id := db.users[|db.users| - 1].id;
    ghost var before := db.donors;
    var inserted := db.InsertDonor(id, fullName, phone, panCard);
    if !inserted {
      return Err(500, "Failed to create donor profile");
    }
    LinkedAppend(before, db.users, Donor, db.donors[|db.donors| - 1]);
    // SELECT * FROM users WHERE id = ?, then SELECT * FROM donors WHERE userId = ?
    // Both rows were just written, so neither lookup comes back empty and the
    // route's "Failed to fetch ... after creation" replies cannot happen.
    var byId := (r: UserRow) => r.id == id;
    var byUserId := (r: ProfileRow<DonorAttrs>) => r.userId == id;
    FirstIsLast(db.users, byId);
    FirstIsLast(db.donors, byUserId);
    var u := First(db.users, byId);
    var p := First(db.donors, byUserId);
    res := Ok(201, GenerateToken(db.users[u.value], DonorRecord(db.donors[p.value])));
  }

  /** POST /signup/donor. After the account, the donors row; a failure of
      that INSERT leaves the account in place without a profile. On success
      the reply is 201 with the token of the new account carrying its row. */
  method SignupDonor(db: Db, hash: string -> string, fullName: Field, email: Field, phone: Field,
                     password: Field, panCard: Field) returns (res: Response<TokenInfo>)
    requires db.Valid() && db.Linked()
    modifies db`users, db`nextUserId, db`donors, db`nextDonorId
    ensures db.Valid() && db.Linked()
    ensures var step := AccountStep(old(db.users), old(db.nextUserId), email, password);
            && (step.Halted? ==> res == step.reply && unchanged(db))
            && (step.Created? ==>
                  var user := UserRow(step.id, email.value, hash(password.value), Donor, 0);
                  && db.users == old(db.users) + [user]
                  && (fullName.None? ==> res == Err(500, "Failed to create donor profile")
                                         && db.donors == old(db.donors))
                  && (fullName.Some? ==>
                        var row := ProfileRow(old(db.nextDonorId), step.id, DonorAttrs(fullName.value, phone, panCard));
                        && db.donors == old(db.donors) + [row]
                        && res == Ok(201, GenerateToken(user, DonorRecord(row)))))
  {
    var c := CreateAccount(db, hash, email, password, Donor);
    if c.Halted? {
      return c.reply;
    }
    res := AddDonorProfile(db, fullName, phone, panCard);
  }

  /** The profile half of POST /signup/ngo, for the account just created: the
      ngos row, whose NOT NULL columns are ngoName, state, city and
      registrationNumber. Even when it is written no reply is sent: the route
      builds its token from variables it never declared. */
  method AddNgoProfile(db: Db, ngoName: Field, phone: Field, state: Field, city: Field, website: Field,
                       registrationNumber: Field, certificateUrl: Field, panTan: Field) returns (res: Response<TokenInfo>)
    requires db.Valid() && db.Linked()
    requires |db.users| > 0 && db.users[|db.users| - 1].userType == Ngo
    requires forall i :: 0 <= i < |db.ngos| ==> db.ngos[i].userId != db.users[|db.users| - 1].id
    modifies db`ngos, db`nextNgoId
    ensures db.Valid() && db.Linked()
    ensures var row := NewNgo(old(db.nextNgoId), db.users[|db.users| - 1].id, ngoName, phone, state, city, website,
                              registrationNumber, certificateUrl, panTan);
            && (row.None? ==> res == Err(500, "Failed to create NGO profile") && unchanged(db))
            && (row.Some? ==> && res == NoResponse(UndeclaredUser)
                              && db.ngos == old(db.ngos) + [row.value] && db.nextNgoId == old(db.nextNgoId) + 1)
  {
    ghost var before := db.ngos;
    var inserted := db.InsertNgo(db.users[|db.users| - 1].id, ngoName, phone, state, city, website,
                                 registrationNumber, certificateUrl, panTan);
    if !inserted {
      return Err(500, "Failed to create NGO profile");
    }
    LinkedAppend(before, db.users, Ngo, db.ngos[|db.ngos| - 1]);
    res := NoResponse(UndeclaredUser);
  }

  /** The handler of POST /signup/ngo, which runs once
      `upload.single('certificate')` has received the request
      (`ReceiveSignupFile("certificate", ...)` is `Received(certificateUrl)`;
      a refused file never reaches it): the account, then the ngos row. */
  method SignupNgo(db: Db, hash: string -> string, certificateUrl: Field,
                   ngoName: Field, email: Field, phone: Field, password: Field, state: Field, city: Field,
                   website: Field, registrationNumber: Field, panTan: Field) returns (res: Response<TokenInfo>)
    requires db.Valid() && db.Linked()
    modifies db`users, db`nextUserId, db`ngos, db`nextNgoId
    ensures db.Valid() && db.Linked()
    ensures !res.Ok?
    ensures var step := AccountStep(old(db.users), old(db.nextUserId), email, password);
            && (step.Halted? ==> res == step.reply && unchanged(db))
            && (step.Created? ==>
                  var row := NewNgo(old(db.nextNgoId), step.id, ngoName, phone, state, city, website,
                                    registrationNumber, certificateUrl, panTan);
                  && db.users == old(db.users) + [UserRow(step.id, email.value, hash(password.value), Ngo, 0)]
                  && (row.None? ==> res == Err(500, "Failed to create NGO profile") && db.ngos == old(db.ngos))
                  && (row.Some? ==> res == NoResponse(UndeclaredUser) && db.ngos == old(db.ngos) + [row.value]))
  {
    var c := CreateAccount(db, hash, email, password, Ngo);
    if c.Halted? {
      return c.reply;
    }
    res := AddNgoProfile(db, ngoName, phone, state, city, website, registrationNumber, certificateUrl, panTan);
  }

  /** The profile half of POST /signup/campaigner, for the account just
      created: the campaigners row, whose NOT NULL columns are fullName,
      phone, city, state, panNumber and idType. As for NGOs, no reply follows. */
  method AddCampaignerProfile(db: Db, fullName: Field, phone: Field, city: Field, state: Field,
                              panNumber: Field, idType: Field, govtIdUrl: Field) returns (res: Response<TokenInfo>)
    requires db.Valid() && db.Linked()
    requires |db.users| > 0 && db.users[|db.users| - 1].userType == Campaigner
    requires forall i :: 0 <= i < |db.campaigners| ==> db.campaigners[i].userId != db.users[|db.users| - 1].id
    modifies db`campaigners, db`nextCampaignerId
    ensures db.Valid() && db.Linked()
    ensures var row := NewCampaigner(old(db.nextCampaignerId), db.users[|db.users| - 1].id, fullName, phone, city,
                                     state, panNumber, idType, govtIdUrl);
            && (row.None? ==> res == Err(500, "Failed to create campaigner profile") && unchanged(db))
            && (row.Some? ==> && res == NoResponse(UndeclaredUser)
                              && db.campaigners == old(db.campaigners) + [row.value]
                              && db.nextCampaignerId == old(db.nextCampaignerId) + 1)
  {
    ghost var before := db.campaigners;
    var inserted := db.InsertCampaigner(db.users[|db.users| - 1].id, fullName, phone, city, state, panNumber,
                                        idType, govtIdUrl);
    if !inserted {
      return Err(500, "Failed to create campaigner profile");
    }
    LinkedAppend(before, db.users, Campaigner, db.campaigners[|db.campaigners| - 1]);
    res := NoResponse(UndeclaredUser);
  }

  /** The handler of POST /signup/campaigner, which runs once
      `upload.single('govtId')` has received the request with the stored
      file's name `govtIdUrl`: the account, then the campaigners row. */
  method SignupCampaigner(db: Db, hash: string -> string, govtIdUrl: Field,
                          fullName: Field, email: Field, phone: Field, password: Field, city: Field,
                          state: Field, panNumber: Field, idType: Field) returns (res: Response<TokenInfo>)
    requires db.Valid() && db.Linked()
    modifies db`users, db`nextUserId, db`campaigners, db`nextCampaignerId
    ensures db.Valid() && db.Linked()
    ensures !res.Ok?
    ensures var step := AccountStep(old(db.users), old(db.nextUserId), email, password);
            && (step.Halted? ==> res == step.reply && unchanged(db))
            && (step.Created? ==>
                  var row := NewCampaigner(old(db.nextCampaignerId), step.id, fullName, phone, city, state,
                                           panNumber, idType, govtIdUrl);
                  && db.users == old(db.users) + [UserRow(step.id, email.value, hash(password.value), Campaigner, 0)]
                  && (row.None? ==> res == Err(500, "Failed to create campaigner profile")
                                    && db.campaigners == old(db.campaigners))
                  && (row.Some? ==> res == NoResponse(UndeclaredUser)
                                    && db.campaigners == old(db.campaigners) + [row.value]))
  {
    var c := CreateAccount(db, hash, email, password, Campaigner);
    if c.Halted? {
      return c.reply;
    }
    res := AddCampaignerProfile(db, fullName, phone, city, state, panNumber, idType, govtIdUrl);
  }

  /** The profile half of POST /signup/admin, for the account just created
      and the access code already checked: the admins row, which stores the
      truthiness of enable2FA as 1 or 0. As for NGOs, no reply follows. */
  method AddAdminProfile(db: Db, enable2FA: bool) returns (res: Response<TokenInfo>)
    requires db.Valid() && db.Linked()
    requires |db.users| > 0 && db.users[|db.users| - 1].userType == Admin
    requires forall i :: 0 <= i < |db.admins| ==> db.admins[i].userId != db.users[|db.users| - 1].id
    modifies db`admins, db`nextAdminId
    ensures db.Valid() && db.Linked()
    ensures db.admins == old(db.admins) + [ProfileRow(old(db.nextAdminId), db.users[|db.users| - 1].id,
                                                      AdminAttrs(AdminAccessCode, if enable2FA then 1 else 0))]
    ensures db.nextAdminId == old(db.nextAdminId) + 1
    ensures res == NoResponse(UndeclaredUser)
  {
    var id := db.users[|db.users| - 1].id;
    ghost var before := db.admins;
    var inserted := db.InsertAdmin(id, Some(AdminAccessCode), if enable2FA then 1 else 0);
    // accessCode, the only NOT NULL column, was checked before the account
    // was created: the route's "Failed to create admin profile" reply cannot happen
    assert inserted;
    LinkedAppend(before, db.users, Admin, db.admins[|db.admins| - 1]);
    res := NoResponse(UndeclaredUser);
  }

  /** POST /signup/admin. The access code is compared with the hard-coded
      one before anything else; then the account and the admins row. */
  method SignupAdmin(db: Db, hash: string -> string, email: Field, password: Field, accessCode: Field,
                     enable2FA: bool) returns (res: Response<TokenInfo>)
    requires db.Valid() && db.Linked()
    modifies db`users, db`nextUserId, db`admins, db`nextAdminId
    ensures db.Valid() && db.Linked()
    ensures !res.Ok?
    ensures accessCode != Some(AdminAccessCode) ==> res == Err(400, "Invalid access code") && unchanged(db)
    ensures var step := AccountStep(old(db.users), old(db.nextUserId), email, password);
            && (accessCode == Some(AdminAccessCode) && step.Halted? ==> res == step.reply && unchanged(db))
            && (accessCode == Some(AdminAccessCode) && step.Created? ==>
                  && db.users == old(db.users) + [UserRow(step.id, email.value, hash(password.value), Admin, 0)]
                  && db.admins == old(db.admins)
                                  + [ProfileRow(old(db.nextAdminId), step.id,
                                                AdminAttrs(AdminAccessCode, if enable2FA then 1 else 0))]
                  && res == NoResponse(UndeclaredUser))
  {
    if accessCode != Some(AdminAccessCode) {
      return Err(400, "Invalid access code");
    }
    var c := CreateAccount(db, hash, email, password, Admin);
    if c.Halted? {
      return c.reply;
    }
    res := AddAdminProfile(db, enable2FA);
  }

  // ---------------------------------------------------------------------------
  // Login

  const InvalidCredentials: string := "Invalid credentials"
  /** bcrypt's rejection of an absent password in `compare`. */
  const CompareRejected: string := "Illegal arguments: undefined, string"

  datatype LoginReply = LoginReply(message: string, info: TokenInfo)

  /** The row `SELECT * FROM users WHERE email = ? AND userType = ?` looks
      for; a NULL parameter matches no row. */
  predicate Credentials(u: UserRow, email: Field, userType: Field)
    ensures Credentials(u, email, userType) ==>
              email.Some? && userType.Some? && ParseRole(userType.value) == Some(u.userType)
  {
    email == Some(u.email) && userType == Some(RoleName(u.userType))
  }

  /** The profile query of the login route for an account of role `role`:
      the selected columns of the first row of the role's table that refers
      to the account, or `Absent` when there is none. */
  function LoginProfile(role: Role, userId: nat, donors: seq<ProfileRow<DonorAttrs>>,
                        ngos: seq<ProfileRow<NgoAttrs>>, campaigners: seq<ProfileRow<CampaignerAttrs>>,
                        admins: seq<ProfileRow<AdminAttrs>>): (p: Profile)
    ensures p.Absent? <==> match role
                           case Donor => forall i :: 0 <= i < |donors| ==> donors[i].userId != userId
                           case Ngo => forall i :: 0 <= i < |ngos| ==> ngos[i].userId != userId
                           case Campaigner => forall i :: 0 <= i < |campaigners| ==> campaigners[i].userId != userId
                           case Admin => forall i :: 0 <= i < |admins| ==> admins[i].userId != userId
    ensures role == Donor && p.DonorSummary? ==>
              exists i :: 0 <= i < |donors| && donors[i].userId == userId && p.fullName == donors[i].attrs.fullName
    ensures role == Ngo && p.NgoSummary? ==>
              exists i :: 0 <= i < |ngos| && ngos[i].userId == userId
                          && p == NgoSummary(ngos[i].attrs.ngoName, ngos[i].attrs.isApproved)
    ensures role == Campaigner && p.CampaignerSummary? ==>
              exists i :: 0 <= i < |campaigners| && campaigners[i].userId == userId
                          && p == CampaignerSummary(campaigners[i].attrs.fullName, campaigners[i].attrs.isApproved)
    ensures role == Admin && p.AdminSummary? ==>
              exists i :: 0 <= i < |admins| && admins[i].userId == userId && p.enable2FA == admins[i].attrs.enable2FA
    ensures match role
            case Donor => p.DonorSummary? || p.Absent?
            case Ngo => p.NgoSummary? || p.Absent?
            case Campaigner => p.CampaignerSummary? || p.Absent?
            case Admin => p.AdminSummary? || p.Absent?
  {
    match role
    case Donor =>
      (match First(donors, (r: ProfileRow<DonorAttrs>) => r.userId == userId)
       case None => Absent
       case Some(k) => DonorSummary(donors[k].attrs.fullName))
    case Ngo =>
      (match First(ngos, (r: ProfileRow<NgoAttrs>) => r.userId == userId)
       case None => Absent
       case Some(k) => NgoSummary(ngos[k].attrs.ngoName, ngos[k].attrs.isApproved))
    case Campaigner =>
      (match First(campaigners, (r: ProfileRow<CampaignerAttrs>) => r.userId == userId)
       case None => Absent
       case Some(k) => CampaignerSummary(campaigners[k].attrs.fullName, campaigners[k].attrs.isApproved))
    case Admin =>
      (match First(admins, (r: ProfileRow<AdminAttrs>) => r.userId == userId)
       case None => Absent
       case Some(k) => AdminSummary(admins[k].attrs.enable2FA))
  }

  /** POST /login. The account is the users row with that email and role;
      none, or a password whose hash differs from the stored one, is
      "Invalid credentials"; an absent password makes bcrypt reject. A match
      logs in with the account's token and the profile its role's table
      holds for it (absent for an account whose profile INSERT failed). */
  method Login(db: Db, hash: string -> string, email: Field, password: Field, userType: Field)
    returns (res: Response<LoginReply>)
    requires db.Valid()
    ensures res.Ok? || res == Err(400, InvalidCredentials) || res == NoResponse(CompareRejected)
    ensures (forall i :: 0 <= i < |db.users| ==> !Credentials(db.users[i], email, userType)) ==>
              res == Err(400, InvalidCredentials)
    ensures res == NoResponse(CompareRejected) <==>
              password.None? && exists i :: 0 <= i < |db.users| && Credentials(db.users[i], email, userType)
    ensures res.Ok? <==>
              password.Some? && exists i :: 0 <= i < |db.users| && Credentials(db.users[i], email, userType)
                                             && hash(password.value) == db.users[i].password
    ensures res.Ok? ==>
              exists i :: 0 <= i < |db.users| && Credentials(db.users[i], email, userType)
                          && res == Ok(200, LoginReply("Login successful",
                                                       GenerateToken(db.users[i],
                                                                     LoginProfile(db.users[i].userType, db.users[i].id,
                                                                                  db.donors, db.ngos, db.campaigners,
                                                                                  db.admins))))
  {
    var k := First(db.users, (u: UserRow) => Credentials(u, email, userType));
    if k.None? {
      return Err(400, InvalidCredentials);
    }
    var user := db.users[k.value];
    assert forall i :: 0 <= i < |db.users| && Credentials(db.users[i], email, userType) ==> i == k.value;
    if password.None? {
      return NoResponse(CompareRejected);
    }
    if hash(password.value) != user.password {
      return Err(400, InvalidCredentials);
    }
    // The switch on userType: the row matched it, so it names one of the four roles.
    var profile := LoginProfile(user.userType, user.id, db.donors, db.ngos, db.campaigners, db.admins);
    res := Ok(200, LoginReply("Login successful", GenerateToken(user, profile)));
  }

  /** In a linked database the login profile of a donor is its own row. */
  lemma LoginProfileOfLinkedDonor(db: Db, k: nat)
    requires db.Valid() && db.Linked()
    requires k < |db.donors|
    ensures LoginProfile(Donor, db.donors[k].userId, db.donors, db.ngos, db.campaigners, db.admins)
            == DonorSummary(db.donors[k].attrs.fullName)
  {
    var p := LoginProfile(Donor, db.donors[k].userId, db.donors, db.ngos, db.campaigners, db.admins);
    assert !p.Absent?;
  }

  /** In a linked database the login profile of an NGO is its own row,
      approval flag included. */
  lemma LoginProfileOfLinkedNgo(db: Db, k: nat)
    requires db.Valid() && db.Linked()
    requires k < |db.ngos|
    ensures LoginProfile(Ngo, db.ngos[k].userId, db.donors, db.ngos, db.campaigners, db.admins)
            == NgoSummary(db.ngos[k].attrs.ngoName, db.ngos[k].attrs.isApproved)
  {
    var p := LoginProfile(Ngo, db.ngos[k].userId, db.donors, db.ngos, db.campaigners, db.admins);
    assert !p.Absent?;
  }

  // ---------------------------------------------------------------------------
  // Signups followed by logins

  /** A donor who signs up with an email no account holds gets a token, and
      can then log in with the same email and password: the token names the
      new account and carries the donor's full name. */
  method DonorSignupThenLogin(db: Db, hash: string -> string, fullName: string, email: string, password: string)
    returns (signup: Response<TokenInfo>, login: Response<LoginReply>)
    requires db.Valid() && db.Linked()
    requires !EmailTaken(db.users, email)
    modifies db`users, db`nextUserId, db`donors, db`nextDonorId
    ensures db.Valid() && db.Linked()
    ensures signup.Ok? && signup.status == 201
    ensures var user := UserRow(old(db.nextUserId), email, hash(password), Donor, 0);
            login == Ok(200, LoginReply("Login successful", GenerateToken(user, DonorSummary(fullName))))
  {
    signup := SignupDonor(db, hash, Some(fullName), Some(email), None, Some(password), None);
    login := Login(db, hash, Some(email), Some(password), Some("donor"));
    var k := |db.users| - 1;
    assert Credentials(db.users[k], Some(email), Some("donor"));
    ghost var i :| 0 <= i < |db.users| && Credentials(db.users[i], Some(email), Some("donor"))
                   && login == Ok(200, LoginReply("Login successful",
                                                  GenerateToken(db.users[i],
                                                                LoginProfile(db.users[i].userType, db.users[i].id,
                                                                             db.donors, db.ngos, db.campaigners,
                                                                             db.admins))));
    assert i == k;
    LoginProfileOfLinkedDonor(db, |db.donors| - 1);
  }

  /** An NGO that signs up with a fresh email and every NOT NULL column gets
      no reply, yet its account and profile are written: a later login
      succeeds, and its token says the NGO is not approved. */
  method NgoSignupThenLogin(db: Db, hash: string -> string, ngoName: string, email: string, password: string,
                            state: string, city: string, registrationNumber: string)
    returns (signup: Response<TokenInfo>, login: Response<LoginReply>)
    requires db.Valid() && db.Linked()
    requires !EmailTaken(db.users, email)
    modifies db`users, db`nextUserId, db`ngos, db`nextNgoId
    ensures db.Valid() && db.Linked()
    ensures signup == NoResponse(UndeclaredUser)
    ensures var user := UserRow(old(db.nextUserId), email, hash(password), Ngo, 0);
            login == Ok(200, LoginReply("Login successful", GenerateToken(user, NgoSummary(ngoName, 0))))
  {
    signup := SignupNgo(db, hash, None, Some(ngoName), Some(email), None, Some(password), Some(state), Some(city),
                        None, Some(registrationNumber), None);
    login := Login(db, hash, Some(email), Some(password), Some("ngo"));
    var k := |db.users| - 1;
    assert Credentials(db.users[k], Some(email), Some("ngo"));
    ghost var i :| 0 <= i < |db.users| && Credentials(db.users[i], Some(email), Some("ngo"))
                   && login == Ok(200, LoginReply("Login successful",
                                                  GenerateToken(db.users[i],
                                                                LoginProfile(db.users[i].userType, db.users[i].id,
                                                                             db.donors, db.ngos, db.campaigners,
                                                                             db.admins))));
    assert i == k;
    LoginProfileOfLinkedNgo(db, |db.ngos| - 1);
  }

  /** One email, one account: once a donor signup has run with an email, a
      campaigner signup with the same email is refused with 400 and writes
      nothing, whether the first signup created the account or found it taken. */
  method SecondSignupRefused(db: Db, hash: string -> string, fullName: string, email: string, password: string)
    returns (first: Response<TokenInfo>, second: Response<TokenInfo>)
    requires db.Valid() && db.Linked()
    modifies db`users, db`nextUserId, db`donors, db`nextDonorId, db`campaigners, db`nextCampaignerId
    ensures db.Valid() && db.Linked()
    ensures second == Err(400, UserExists)
    ensures db.users == old(db.users) + (if EmailTaken(old(db.users), email) then []
                                         else [UserRow(old(db.nextUserId), email, hash(password), Donor, 0)])
    ensures db.campaigners == old(db.campaigners)
  {
    first := SignupDonor(db, hash, Some(fullName), Some(email), None, Some(password), None);
    if !EmailTaken(old(db.users), email) {
      assert db.users[|db.users| - 1].email == email;
    }
    second := SignupCampaigner(db, hash, None, Some(fullName), Some(email), None, Some(password), None, None, None, None);
  }

  // ---------------------------------------------------------------------------
  // Phone login

  const PhoneLoginUnavailable: string := "Phone login not available for this user type"
  const PhoneNotFound: string := "User not found with this phone number"

  datatype OtpReply = OtpReply(message: string, tempToken: string)

  /** The roles the phone-login switch accepts. */
  function PhoneRole(userType: Field): (r: Option<Role>)
    ensures r.Some? <==> userType == Some("donor") || userType == Some("ngo") || userType == Some("campaigner")
    ensures r.Some? ==> userType == Some(RoleName(r.value)) && r.value != Admin
  {
    if userType == Some("donor") then Some(Donor)
    else if userType == Some("ngo") then Some(Ngo)
    else if userType == Some("campaigner") then Some(Campaigner)
    else None
  }

  /** The rows of the join `users u JOIN <role's table> p ON u.id = p.userId
      WHERE p.phone = ? AND u.userType = ?`: a profile row with that phone
      whose account has the role. */
  predicate PhoneOwner(db: Db, role: Role, phone: string, id: nat)
    reads db
  {
    && HasAccount(db.users, id, role)
    && match role
       case Donor => exists i :: 0 <= i < |db.donors| && db.donors[i].userId == id && db.donors[i].attrs.phone == Some(phone)
       case Ngo => exists i :: 0 <= i < |db.ngos| && db.ngos[i].userId == id && db.ngos[i].attrs.phone == Some(phone)
       case Campaigner => exists i :: 0 <= i < |db.campaigners| && db.campaigners[i].userId == id
                                      && db.campaigners[i].attrs.phone == phone
       case Admin => false
  }

  /** The account `db.get` finds for the join: the first profile row in
      rowid order with that phone and an account of the role. */
  function PhoneAccount(db: Db, role: Role, phone: string): (r: Option<nat>)
    reads db
    ensures r.Some? ==> PhoneOwner(db, role, phone, r.value)
    ensures r.None? ==> forall id :: !PhoneOwner(db, role, phone, id)
  {
    var users := db.users;
    match role
    case Donor =>
      (match First(db.donors, (p: ProfileRow<DonorAttrs>) => p.attrs.phone == Some(phone) && HasAccount(users, p.userId, Donor))
       case None => None
       case Some(k) => Some(db.donors[k].userId))
    case Ngo =>
      (match First(db.ngos, (p: ProfileRow<NgoAttrs>) => p.attrs.phone == Some(phone) && HasAccount(users, p.userId, Ngo))
       case None => None
       case Some(k) => Some(db.ngos[k].userId))
    case Campaigner =>
      (match First(db.campaigners, (p: ProfileRow<CampaignerAttrs>) => p.attrs.phone == phone && HasAccount(users, p.userId, Campaigner))
       case None => None
       case Some(k) => Some(db.campaigners[k].userId))
    case Admin => None
  }

  /** The temporary token of the phone login: "temp-" and the account id. */
  function TempToken(id: nat): (t: string)
    ensures |t| > 5 && t[..5] == "temp-"
  {
    "temp-" + Decimal(id)
  }

  /** Different accounts get different temporary tokens. */
  lemma TempTokenIdentifiesAccount(a: nat, b: nat)
    requires TempToken(a) == TempToken(b)
    ensures a == b
  {
    assert Decimal(a) == TempToken(a)[5..];
    assert Decimal(b) == TempToken(b)[5..];
    DecimalRoundTrip(a);
    DecimalRoundTrip(b);
  }

  /** POST /login/otp. Only donors, NGOs and campaigners may log in by phone;
      an account whose profile row has that phone gets a temporary token
      naming it, and no OTP is sent. */
  method LoginOtp(db: Db, phone: Field, userType: Field) returns (res: Response<OtpReply>)
    ensures PhoneRole(userType).None? ==> res == Err(400, PhoneLoginUnavailable)
    ensures PhoneRole(userType).Some? && !res.Ok? ==> res == Err(400, PhoneNotFound)
    ensures res.Ok? <==> PhoneRole(userType).Some? && phone.Some?
                         && exists id :: PhoneOwner(db, PhoneRole(userType).value, phone.value, id)
    ensures res.Ok? ==> exists id :: PhoneOwner(db, PhoneRole(userType).value, phone.value, id)
                                     && res == Ok(200, OtpReply("OTP sent successfully", TempToken(id)))
  {
    var role := PhoneRole(userType);
    if role.None? {
      return Err(400, PhoneLoginUnavailable);
    }
    if phone.None? {
      // `p.phone = NULL` holds for no row
      return Err(400, PhoneNotFound);
    }
    var id := PhoneAccount(db, role.value, phone.value);
    if id.None? {
      return Err(400, PhoneNotFound);
    }
    res := Ok(200, OtpReply("OTP sent successfully", TempToken(id.value)));
  }
}
