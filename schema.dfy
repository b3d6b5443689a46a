/** The tables that server/database/init.js creates: one record type per
    table, the CHECK enumerations, the column defaults, the NOT NULL columns
    (a row constructor that fails when one of them is absent) and the
    predicates that state which table contents the DDL admits. */
module Schema {
  import opened Common

  // ---------------------------------------------------------------------------
  // Enumerations

  /** users.userType, CHECK (userType IN ('donor', 'ngo', 'campaigner', 'admin')). */
  datatype Role = Donor | Ngo | Campaigner | Admin

  function RoleName(r: Role): string
  {
    match r
    case Donor => "donor"
    case Ngo => "ngo"
    case Campaigner => "campaigner"
    case Admin => "admin"
  }

  /** The CHECK on users.userType: a string names a role or is refused. */
  function ParseRole(s: string): (r: Option<Role>)
    ensures r.Some? ==> RoleName(r.value) == s
    ensures r.None? ==> forall x: Role :: RoleName(x) != s
  {
    if s == "donor" then Some(Donor)
    else if s == "ngo" then Some(Ngo)
    else if s == "campaigner" then Some(Campaigner)
    else if s == "admin" then Some(Admin)
    else None
  }

  /** campaigns.organizerType, CHECK (organizerType IN ('ngo', 'campaigner')). */
  type OrganizerRole = r: Role | r == Ngo || r == Campaigner witness Ngo

  function ParseOrganizer(s: string): (r: Option<OrganizerRole>)
    ensures r.Some? <==> s == "ngo" || s == "campaigner"
    ensures r.Some? ==> RoleName(r.value) == s
  {
    if s == "ngo" then Some(Ngo) else if s == "campaigner" then Some(Campaigner) else None
  }

  /** donations.status, DEFAULT 'pending' CHECK (status IN ('pending', 'completed', 'failed')). */
  datatype DonationStatus = Pending | Completed | Failed

  // ---------------------------------------------------------------------------
  // Rows. A NOT NULL column has a plain type, a nullable one a Field or Option.
  // The createdAt/updatedAt columns of users are left out: no route reads them.

  datatype UserRow = UserRow(id: nat, email: string, password: string, userType: Role, isVerified: int)

  /** A row of one of the four profile tables: its own AUTOINCREMENT id, the
      users.id it refers to, and the table's other columns. */
  datatype ProfileRow<+A> = ProfileRow(id: nat, userId: nat, attrs: A)

  datatype DonorAttrs = DonorAttrs(fullName: string, phone: Field, panCard: Field)

  datatype NgoAttrs = NgoAttrs(
    ngoName: string, phone: Field, state: string, city: string, website: Field,
    registrationNumber: string, certificateUrl: Field, panTan: Field, isApproved: int)

  datatype CampaignerAttrs = CampaignerAttrs(
    fullName: string, phone: string, city: string, state: string, panNumber: string,
    idType: string, govtIdUrl: Field, isApproved: int)

  datatype AdminAttrs = AdminAttrs(accessCode: string, enable2FA: int)

  /** A campaigns row. The record holds the columns of the DDL and also the
      columns the campaign routes write that the DDL lacks (currentAmount,
      location, startDate, endDate). Amounts are whole numbers. */
  datatype CampaignRow = CampaignRow(
    id: nat, title: string, description: string, targetAmount: int,
    raisedAmount: int, currentAmount: int, organizerId: nat,
    organizerType: OrganizerRole, category: string, imageUrl: Field,
    location: Field, startDate: Field, endDate: Field, isActive: int,
    createdAt: string, updatedAt: string)

  datatype DonationRow = DonationRow(
    id: nat, donorId: nat, campaignId: nat, amount: int, transactionId: Field,
    status: DonationStatus, createdAt: string)

  // ---------------------------------------------------------------------------
  // Inserting a row: NOT NULL refuses an absent value, DEFAULT fills the
  // columns the INSERT does not name.

  /** INSERT INTO users (email, password, userType): email is NOT NULL and
      isVerified defaults to 0. */
  function NewUser(id: nat, email: Field, password: string, userType: Role): (r: Option<UserRow>)
    ensures r.Some? <==> email.Some?
    ensures r.Some? ==> r.value.id == id && r.value.email == email.value
                        && r.value.password == password && r.value.userType == userType
                        && r.value.isVerified == 0
  {
    if email.None? then None else Some(UserRow(id, email.value, password, userType, 0))
  }

  /** INSERT INTO donors: fullName is the one NOT NULL column besides userId. */
  function NewDonor(id: nat, userId: nat, fullName: Field, phone: Field, panCard: Field)
    : (r: Option<ProfileRow<DonorAttrs>>)
    ensures r.Some? <==> fullName.Some?
    ensures r.Some? ==> r.value.id == id && r.value.userId == userId
                        && r.value.attrs == DonorAttrs(fullName.value, phone, panCard)
  {
    if fullName.None? then None
    else Some(ProfileRow(id, userId, DonorAttrs(fullName.value, phone, panCard)))
  }

  /** INSERT INTO ngos: ngoName, state, city and registrationNumber are NOT NULL;
      isApproved defaults to 0. */
  function NewNgo(id: nat, userId: nat, ngoName: Field, phone: Field, state: Field, city: Field,
                  website: Field, registrationNumber: Field, certificateUrl: Field, panTan: Field)
    : (r: Option<ProfileRow<NgoAttrs>>)
    ensures r.Some? <==> ngoName.Some? && state.Some? && city.Some? && registrationNumber.Some?
    ensures r.Some? ==> r.value.id == id && r.value.userId == userId
                        && r.value.attrs.ngoName == ngoName.value && r.value.attrs.phone == phone
                        && r.value.attrs.state == state.value && r.value.attrs.city == city.value
                        && r.value.attrs.website == website
                        && r.value.attrs.registrationNumber == registrationNumber.value
                        && r.value.attrs.certificateUrl == certificateUrl
                        && r.value.attrs.panTan == panTan
                        && r.value.attrs.isApproved == 0
  {
    if ngoName.None? || state.None? || city.None? || registrationNumber.None? then None
    else Some(ProfileRow(id, userId, NgoAttrs(ngoName.value, phone, state.value, city.value, website,
                                              registrationNumber.value, certificateUrl, panTan, 0)))
  }

  /** INSERT INTO campaigners: fullName, phone, city, state, panNumber and idType
      are NOT NULL; isApproved defaults to 0. */
  function NewCampaigner(id: nat, userId: nat, fullName: Field, phone: Field, city: Field, state: Field,
                         panNumber: Field, idType: Field, govtIdUrl: Field)
    : (r: Option<ProfileRow<CampaignerAttrs>>)
    ensures r.Some? <==> fullName.Some? && phone.Some? && city.Some? && state.Some?
                         && panNumber.Some? && idType.Some?
    ensures r.Some? ==> r.value.id == id && r.value.userId == userId
                        && r.value.attrs.fullName == fullName.value && r.value.attrs.phone == phone.value
                        && r.value.attrs.city == city.value && r.value.attrs.state == state.value
                        && r.value.attrs.panNumber == panNumber.value
                        && r.value.attrs.idType == idType.value
                        && r.value.attrs.govtIdUrl == govtIdUrl
                        && r.value.attrs.isApproved == 0
  {
    if fullName.None? || phone.None? || city.None? || state.None? || panNumber.None? || idType.None? then None
    else Some(ProfileRow(id, userId, CampaignerAttrs(fullName.value, phone.value, city.value, state.value,
                                                     panNumber.value, idType.value, govtIdUrl, 0)))
  }

  /** INSERT INTO admins: accessCode is NOT NULL. */
  function NewAdmin(id: nat, userId: nat, accessCode: Field, enable2FA: int): (r: Option<ProfileRow<AdminAttrs>>)
    ensures r.Some? <==> accessCode.Some?
    ensures r.Some? ==> r.value.id == id && r.value.userId == userId
                        && r.value.attrs == AdminAttrs(accessCode.value, enable2FA)
  {
    if accessCode.None? then None else Some(ProfileRow(id, userId, AdminAttrs(accessCode.value, enable2FA)))
  }

  /** INSERT INTO campaigns: title, description, targetAmount, category and
      organizerType are NOT NULL, organizerType must pass its CHECK, and
      raisedAmount defaults to 0. currentAmount and isActive are the literals
      0 and 1 of the route's VALUES list; createdAt is datetime('now') and
      updatedAt takes its default, the same instant. */
  function NewCampaign(id: nat, title: Field, description: Field, targetAmount: Option<int>,
                       category: Field, location: Field, imageUrl: Field, startDate: Field,
                       endDate: Field, organizerId: nat, organizerType: string, now: string)
    : (r: Option<CampaignRow>)
    ensures r.Some? <==> title.Some? && description.Some? && targetAmount.Some? && category.Some?
                         && (organizerType == "ngo" || organizerType == "campaigner")
    ensures r.Some? ==> var c := r.value;
                        && c.id == id && c.title == title.value && c.description == description.value
                        && c.targetAmount == targetAmount.value && c.category == category.value
                        && c.location == location && c.imageUrl == imageUrl
                        && c.startDate == startDate && c.endDate == endDate
                        && c.organizerId == organizerId && RoleName(c.organizerType) == organizerType
                        && c.raisedAmount == 0 && c.currentAmount == 0 && c.isActive == 1
                        && c.createdAt == now && c.updatedAt == now
  {
    match ParseOrganizer(organizerType)
    case None => None
    case Some(o) =>
      if title.None? || description.None? || targetAmount.None? || category.None? then None
      else Some(CampaignRow(id, title.value, description.value, targetAmount.value, 0, 0,
                            organizerId, o, category.value, imageUrl, location, startDate,
                            endDate, 1, now, now))
  }

  /** INSERT INTO donations: amount is NOT NULL; status defaults to 'pending'
      and any value outside its CHECK list is refused. */
  function NewDonation(id: nat, donorId: nat, campaignId: nat, amount: Option<int>,
                       transactionId: Field, status: Field, now: string)
    : (r: Option<DonationRow>)
    ensures r.Some? <==> amount.Some? && (status.None? || status.value in {"pending", "completed", "failed"})
    ensures r.Some? ==> r.value.status == (if status == Some("completed") then Completed
                                           else if status == Some("failed") then Failed
                                           else Pending)
    ensures r.Some? && status.None? ==> r.value.status == Pending
  {
    if amount.None? then None
    else match status
      case None => Some(DonationRow(id, donorId, campaignId, amount.value, transactionId, Pending, now))
      case Some(s) =>
        if s == "pending" then Some(DonationRow(id, donorId, campaignId, amount.value, transactionId, Pending, now))
        else if s == "completed" then Some(DonationRow(id, donorId, campaignId, amount.value, transactionId, Completed, now))
        else if s == "failed" then Some(DonationRow(id, donorId, campaignId, amount.value, transactionId, Failed, now))
        else None
  }

  // ---------------------------------------------------------------------------
  // The UPDATE statements of the campaign routes

  /** The SET list of the campaign update: the eight columns the route
      writes. title, description, targetAmount and category are NOT NULL. */
  datatype Revision = Revision(
    title: string, description: string, targetAmount: int, category: string,
    location: Field, imageUrl: Field, startDate: Field, endDate: Field)

  /** The values of the SET list, or None when one of them would set a NOT
      NULL column to NULL (the UPDATE then fails and changes nothing). */
  function NewRevision(title: Field, description: Field, targetAmount: Option<int>, category: Field,
                       location: Field, imageUrl: Field, startDate: Field, endDate: Field)
    : (r: Option<Revision>)
    ensures r.Some? <==> title.Some? && description.Some? && targetAmount.Some? && category.Some?
    ensures r.Some? ==> r.value == Revision(title.value, description.value, targetAmount.value, category.value,
                                            location, imageUrl, startDate, endDate)
  {
    if title.None? || description.None? || targetAmount.None? || category.None? then None
    else Some(Revision(title.value, description.value, targetAmount.value, category.value,
                       location, imageUrl, startDate, endDate))
  }

  /** One row after the SET list and `updatedAt = datetime('now')`: the
      columns the route does not name keep their values. */
  function Revise(c: CampaignRow, rev: Revision, now: string): (r: CampaignRow)
    ensures r.id == c.id && r.organizerId == c.organizerId && r.organizerType == c.organizerType
    ensures r.isActive == c.isActive && r.createdAt == c.createdAt
    ensures r.raisedAmount == c.raisedAmount && r.currentAmount == c.currentAmount
    ensures Revision(r.title, r.description, r.targetAmount, r.category, r.location, r.imageUrl,
                     r.startDate, r.endDate) == rev
    ensures r.updatedAt == now
  {
    c.(title := rev.title, description := rev.description, targetAmount := rev.targetAmount,
       category := rev.category, location := rev.location, imageUrl := rev.imageUrl,
       startDate := rev.startDate, endDate := rev.endDate, updatedAt := now)
  }

  /** The WHERE clause `id = ? AND organizerId = ? AND organizerType = ?` of
      the ownership check and of the soft delete. */
  predicate OwnedBy(c: CampaignRow, id: int, organizerId: int, organizerType: string)
  {
    c.id == id && c.organizerId == organizerId && RoleName(c.organizerType) == organizerType
  }

  /** `UPDATE campaigns SET isActive = 0 WHERE <OwnedBy>` on one row. */
  function Deactivate(c: CampaignRow, id: int, organizerId: int, organizerType: string): CampaignRow
  {
    if OwnedBy(c, id, organizerId, organizerType) then c.(isActive := 0) else c
  }

  /** The soft delete applied to the whole table. */
  function SoftDeleted(rows: seq<CampaignRow>, id: int, organizerId: int, organizerType: string)
    : (r: seq<CampaignRow>)
    ensures |r| == |rows|
    ensures forall i :: 0 <= i < |rows| ==> r[i] == Deactivate(rows[i], id, organizerId, organizerType)
  {
    seq(|rows|, i requires 0 <= i < |rows| => Deactivate(rows[i], id, organizerId, organizerType))
  }

  /** `this.changes` of the soft delete: the number of rows its WHERE clause
      matches, whether or not they were active. */
  function Changes(rows: seq<CampaignRow>, id: int, organizerId: int, organizerType: string): (c: nat)
    ensures c <= |rows|
  {
    if rows == [] then 0
    else Changes(rows[..|rows| - 1], id, organizerId, organizerType)
         + (if OwnedBy(rows[|rows| - 1], id, organizerId, organizerType) then 1 else 0)
  }

  /** The count is positive exactly when some row is the caller's campaign:
      `result.changes === 0` means nothing was found to delete. */
  lemma {:induction false} ChangesPositive(rows: seq<CampaignRow>, id: int, organizerId: int, organizerType: string)
    ensures Changes(rows, id, organizerId, organizerType) > 0
            <==> exists i :: 0 <= i < |rows| && OwnedBy(rows[i], id, organizerId, organizerType)
  {
    if rows != [] {
      var init := rows[..|rows| - 1];
      ChangesPositive(init, id, organizerId, organizerType);
      assert forall i :: 0 <= i < |init| ==> init[i] == rows[i];
    }
  }

  /** Counting one more row of the table. */
  lemma ChangesStep(rows: seq<CampaignRow>, i: nat, id: int, organizerId: int, organizerType: string)
    requires i < |rows|
    ensures Changes(rows[..i + 1], id, organizerId, organizerType)
            == Changes(rows[..i], id, organizerId, organizerType)
               + (if OwnedBy(rows[i], id, organizerId, organizerType) then 1 else 0)
  {
    assert rows[..i + 1][..i] == rows[..i];
  }

  /** The soft delete keeps every id, so the table stays valid. */
  lemma SoftDeletedValid(rows: seq<CampaignRow>, nextId: nat, id: int, organizerId: int, organizerType: string)
    requires CampaignsValid(rows, nextId)
    ensures CampaignsValid(SoftDeleted(rows, id, organizerId, organizerType), nextId)
  {
    var r := SoftDeleted(rows, id, organizerId, organizerType);
    assert forall i :: 0 <= i < |r| ==> r[i].id == rows[i].id;
  }

  /** The statement changes no row exactly when it changes nothing. */
  lemma {:induction false} NoChangesNoEffect(rows: seq<CampaignRow>, id: int, organizerId: int, organizerType: string)
    ensures Changes(rows, id, organizerId, organizerType) == 0
            <==> forall i :: 0 <= i < |rows| ==> !OwnedBy(rows[i], id, organizerId, organizerType)
    ensures Changes(rows, id, organizerId, organizerType) == 0 ==> SoftDeleted(rows, id, organizerId, organizerType) == rows
  {
    if rows != [] {
      var init := rows[..|rows| - 1];
      NoChangesNoEffect(init, id, organizerId, organizerType);
      assert forall i :: 0 <= i < |init| ==> init[i] == rows[i];
    }
  }

  /** Repeating the soft delete changes nothing more, and matches as many rows
      again: the owner's second DELETE succeeds too. */
  lemma {:induction false} SoftDeleteIdempotent(rows: seq<CampaignRow>, id: int, organizerId: int, organizerType: string)
    ensures var once := SoftDeleted(rows, id, organizerId, organizerType);
            && SoftDeleted(once, id, organizerId, organizerType) == once
            && Changes(once, id, organizerId, organizerType) == Changes(rows, id, organizerId, organizerType)
  {
    var once := SoftDeleted(rows, id, organizerId, organizerType);
    if rows != [] {
      var init := rows[..|rows| - 1];
      SoftDeleteIdempotent(init, id, organizerId, organizerType);
      assert once[..|once| - 1] == SoftDeleted(init, id, organizerId, organizerType);
    }
  }

  // ---------------------------------------------------------------------------
  // Table contents the DDL admits

  /** Some users row holds `email`: what `SELECT email FROM users WHERE email = ?` finds. */
  predicate EmailTaken(users: seq<UserRow>, email: string)
  {
    exists i :: 0 <= i < |users| && users[i].email == email
  }

  /** users: AUTOINCREMENT ids below the next one, distinct ids, UNIQUE email. */
  ghost predicate UsersValid(users: seq<UserRow>, nextId: nat)
  {
    && (forall i :: 0 <= i < |users| ==> 0 < users[i].id < nextId)
    && (forall i, j :: 0 <= i < j < |users| ==> users[i].id != users[j].id && users[i].email != users[j].email)
  }

  /** A profile table's own ids: AUTOINCREMENT, below the next one, distinct. */
  ghost predicate ProfileIdsValid<A>(rows: seq<ProfileRow<A>>, nextId: nat)
  {
    && (forall i :: 0 <= i < |rows| ==> 0 < rows[i].id < nextId)
    && (forall i, j :: 0 <= i < j < |rows| ==> rows[i].id != rows[j].id)
  }

  /** campaigns: AUTOINCREMENT ids below the next one, distinct. */
  ghost predicate CampaignsValid(rows: seq<CampaignRow>, nextId: nat)
  {
    && (forall i :: 0 <= i < |rows| ==> 0 < rows[i].id < nextId)
    && (forall i, j :: 0 <= i < j < |rows| ==> rows[i].id != rows[j].id)
  }

  /** A users row with the next id and an email not yet present keeps the table valid. */
  lemma UsersAppend(users: seq<UserRow>, nextId: nat, u: UserRow)
    requires UsersValid(users, nextId) && u.id == nextId > 0 && !EmailTaken(users, u.email)
    ensures UsersValid(users + [u], nextId + 1)
  {
    var t := users + [u];
    forall i, j | 0 <= i < j < |t|
      ensures t[i].id != t[j].id && t[i].email != t[j].email
    {
      if j == |users| {
        assert t[i] == users[i];
      }
    }
  }

  /** A profile row with the next id keeps the table's ids valid. */
  lemma ProfileIdsAppend<A>(rows: seq<ProfileRow<A>>, nextId: nat, r: ProfileRow<A>)
    requires ProfileIdsValid(rows, nextId) && r.id == nextId > 0
    ensures ProfileIdsValid(rows + [r], nextId + 1)
  {
    var t := rows + [r];
    forall i, j | 0 <= i < j < |t|
      ensures t[i].id != t[j].id
    {
      if j == |rows| {
        assert t[i] == rows[i];
      }
    }
  }

  /** A campaign row with the next id keeps the table's ids valid. */
  lemma CampaignsAppend(rows: seq<CampaignRow>, nextId: nat, r: CampaignRow)
    requires CampaignsValid(rows, nextId) && r.id == nextId > 0
    ensures CampaignsValid(rows + [r], nextId + 1)
  {
    var t := rows + [r];
    forall i, j | 0 <= i < j < |t|
      ensures t[i].id != t[j].id
    {
      if j == |rows| {
        assert t[i] == rows[i];
      }
    }
  }

  /** Some users row has id `id` and role `role`. */
  predicate HasAccount(users: seq<UserRow>, id: nat, role: Role)
  {
    exists i :: 0 <= i < |users| && users[i].id == id && users[i].userType == role
  }

  /** The FOREIGN KEY (userId) REFERENCES users (id) of a profile table, with
      the row's account of the table's role, and at most one row per account.
      SQLite enforces neither part here (foreign keys are off unless a PRAGMA
      turns them on, and userId is not UNIQUE): the signup routes keep them. */
  ghost predicate ProfilesLinked<A>(rows: seq<ProfileRow<A>>, users: seq<UserRow>, role: Role)
  {
    && (forall i :: 0 <= i < |rows| ==> HasAccount(users, rows[i].userId, role))
    && (forall i, j :: 0 <= i < j < |rows| ==> rows[i].userId != rows[j].userId)
  }

  /** Appending a users row keeps every account that was there. */
  lemma {:induction false} LinkedAfterNewUser<A>(rows: seq<ProfileRow<A>>, users: seq<UserRow>, u: UserRow, role: Role)
    requires ProfilesLinked(rows, users, role)
    ensures ProfilesLinked(rows, users + [u], role)
  {
    forall i | 0 <= i < |rows|
      ensures HasAccount(users + [u], rows[i].userId, role)
    {
      var k :| 0 <= k < |users| && users[k].id == rows[i].userId && users[k].userType == role;
      assert (users + [u])[k] == users[k];
    }
  }

  /** Appending a profile row for an account of the table's role that has no
      row yet keeps the table linked. */
  lemma {:induction false} LinkedAppend<A>(rows: seq<ProfileRow<A>>, users: seq<UserRow>, role: Role, r: ProfileRow<A>)
    requires ProfilesLinked(rows, users, role)
    requires HasAccount(users, r.userId, role)
    requires forall i :: 0 <= i < |rows| ==> rows[i].userId != r.userId
    ensures ProfilesLinked(rows + [r], users, role)
  {
    var t := rows + [r];
    forall i | 0 <= i < |t|
      ensures HasAccount(users, t[i].userId, role)
    {
      if i < |rows| { assert t[i] == rows[i]; }
    }
    forall i, j | 0 <= i < j < |t|
      ensures t[i].userId != t[j].userId
    {
      assert t[i] == rows[i];
      if j < |rows| { assert t[j] == rows[j]; }
    }
  }

  /** A linked profile table refers only to ids below the users' next id, so a
      freshly allocated users id has no profile row yet. */
  lemma {:induction false} FreshIdUnlinked<A>(rows: seq<ProfileRow<A>>, users: seq<UserRow>, nextId: nat, role: Role)
    requires UsersValid(users, nextId) && ProfilesLinked(rows, users, role)
    ensures forall i :: 0 <= i < |rows| ==> rows[i].userId < nextId
  {
    forall i | 0 <= i < |rows|
      ensures rows[i].userId < nextId
    {
      var k :| 0 <= k < |users| && users[k].id == rows[i].userId && users[k].userType == role;
    }
  }

  /** Linked profile tables of two different roles never share an account:
      one profile per user across the four tables. */
  lemma {:induction false} OneProfilePerAccount<A, B>(
    rows: seq<ProfileRow<A>>, other: seq<ProfileRow<B>>, users: seq<UserRow>, nextId: nat, role: Role, otherRole: Role)
    requires UsersValid(users, nextId)
    requires ProfilesLinked(rows, users, role) && ProfilesLinked(other, users, otherRole)
    requires role != otherRole
    ensures forall i, j :: 0 <= i < |rows| && 0 <= j < |other| ==> rows[i].userId != other[j].userId
  {
    forall i, j | 0 <= i < |rows| && 0 <= j < |other|
      ensures rows[i].userId != other[j].userId
    {
      var a :| 0 <= a < |users| && users[a].id == rows[i].userId && users[a].userType == role;
      var b :| 0 <= b < |users| && users[b].id == other[j].userId && users[b].userType == otherRole;
      assert a != b;
    }
  }
}
