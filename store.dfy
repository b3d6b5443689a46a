/** The SQLite database handle `db` that server/database/init.js opens, held
    in memory: one sequence per table in rowid order and, per table, the
    next AUTOINCREMENT id. The INSERT statements of the routes are methods
    that enforce what the DDL declares. */
module Store {
  import opened Common
  import opened Schema

  class Db {
    var users: seq<UserRow>
    var donors: seq<ProfileRow<DonorAttrs>>
    var ngos: seq<ProfileRow<NgoAttrs>>
    var campaigners: seq<ProfileRow<CampaignerAttrs>>
    var admins: seq<ProfileRow<AdminAttrs>>
    var campaigns: seq<CampaignRow>

    // sqlite_sequence: the id the next successful INSERT into each table gets
    var nextUserId: nat
    var nextDonorId: nat
    var nextNgoId: nat
    var nextCampaignerId: nat
    var nextAdminId: nat
    var nextCampaignId: nat

    /** What the DDL enforces: AUTOINCREMENT ids (the sequences start at 1)
        and the UNIQUE email. NOT NULL columns and the CHECK enumerations are
        enforced by the row types. */
    ghost predicate Valid()
      reads this
    {
      && nextUserId > 0 && nextDonorId > 0 && nextNgoId > 0
      && nextCampaignerId > 0 && nextAdminId > 0 && nextCampaignId > 0
      && UsersValid(users, nextUserId)
      && ProfileIdsValid(donors, nextDonorId)
      && ProfileIdsValid(ngos, nextNgoId)
      && ProfileIdsValid(campaigners, nextCampaignerId)
      && ProfileIdsValid(admins, nextAdminId)
      && CampaignsValid(campaigns, nextCampaignId)
    }

    /** What the signup routes keep although SQLite does not enforce it: every
        profile row refers to an account of its table's role, one row per account. */
    ghost predicate Linked()
      reads this
    {
      && ProfilesLinked(donors, users, Donor)
      && ProfilesLinked(ngos, users, Ngo)
      && ProfilesLinked(campaigners, users, Campaigner)
      && ProfilesLinked(admins, users, Admin)
    }

    /** A freshly created database: every table empty, every sequence at 1. */
    constructor ()
      ensures Valid() && Linked()
      ensures users == [] && donors == [] && ngos == [] && campaigners == [] && admins == []
      ensures campaigns == []
      ensures nextUserId == 1 && nextDonorId == 1 && nextNgoId == 1
      ensures nextCampaignerId == 1 && nextAdminId == 1 && nextCampaignId == 1
    {
      users, donors, ngos, campaigners, admins, campaigns := [], [], [], [], [], [];
      nextUserId, nextDonorId, nextNgoId, nextCampaignerId, nextAdminId, nextCampaignId := 1, 1, 1, 1, 1, 1;
    }

    /** `INSERT INTO users (email, password, userType)`: refused when email is
        NULL or already present; otherwise the row gets the next id (`lastID`). */
    method InsertUser(email: Field, password: string, userType: Role) returns (id: Option<nat>)
      requires Valid()
      modifies this`users, this`nextUserId
      ensures Valid()
      ensures old(Linked()) ==> Linked()
      ensures id.Some? <==> email.Some? && !EmailTaken(old(users), email.value)
      ensures id.Some? ==> && id.value == old(nextUserId) && nextUserId == old(nextUserId) + 1
                           && users == old(users) + [UserRow(id.value, email.value, password, userType, 0)]
      ensures id.None? ==> users == old(users) && nextUserId == old(nextUserId)
    {
      var row := NewUser(nextUserId, email, password, userType);
      if row.None? || exists i :: 0 <= i < |users| && users[i].email == email.value {
        return None;
      }
      if Linked() {
        LinkedAfterNewUser(donors, users, row.value, Donor);
        LinkedAfterNewUser(ngos, users, row.value, Ngo);
        LinkedAfterNewUser(campaigners, users, row.value, Campaigner);
        LinkedAfterNewUser(admins, users, row.value, Admin);
      }
      UsersAppend(users, nextUserId, row.value);
      users := users + [row.value];
      id := Some(nextUserId);
      nextUserId := nextUserId + 1;
    }

    /** `INSERT INTO donors (userId, fullName, phone, panCard)`. */
    method InsertDonor(userId: nat, fullName: Field, phone: Field, panCard: Field) returns (ok: bool)
      requires Valid()
      modifies this`donors, this`nextDonorId
      ensures Valid()
      ensures ok <==> fullName.Some?
      ensures ok ==> && nextDonorId == old(nextDonorId) + 1
                     && donors == old(donors) + [NewDonor(old(nextDonorId), userId, fullName, phone, panCard).value]
      ensures !ok ==> donors == old(donors) && nextDonorId == old(nextDonorId)
    {
      var row := NewDonor(nextDonorId, userId, fullName, phone, panCard);
      ok := row.Some?;
      if ok {
        ProfileIdsAppend(donors, nextDonorId, row.value);
        donors := donors + [row.value];
        nextDonorId := nextDonorId + 1;
      }
    }

    /** `INSERT INTO ngos (userId, ngoName, phone, state, city, website,
        registrationNumber, certificateUrl, panTan)`. */
    method InsertNgo(userId: nat, ngoName: Field, phone: Field, state: Field, city: Field, website: Field,
                     registrationNumber: Field, certificateUrl: Field, panTan: Field) returns (ok: bool)
      requires Valid()
      modifies this`ngos, this`nextNgoId
      ensures Valid()
      ensures ok <==> NewNgo(old(nextNgoId), userId, ngoName, phone, state, city, website,
                             registrationNumber, certificateUrl, panTan).Some?
      ensures ok ==> && nextNgoId == old(nextNgoId) + 1
                     && ngos == old(ngos) + [NewNgo(old(nextNgoId), userId, ngoName, phone, state, city, website,
                                                    registrationNumber, certificateUrl, panTan).value]
      ensures !ok ==> ngos == old(ngos) && nextNgoId == old(nextNgoId)
    {
      var row := NewNgo(nextNgoId, userId, ngoName, phone, state, city, website,
                        registrationNumber, certificateUrl, panTan);
      ok := row.Some?;
      if ok {
        ProfileIdsAppend(ngos, nextNgoId, row.value);
        ngos := ngos + [row.value];
        nextNgoId := nextNgoId + 1;
      }
    }

    /** `INSERT INTO campaigners (userId, fullName, phone, city, state,
        panNumber, idType, govtIdUrl)`. */
    method InsertCampaigner(userId: nat, fullName: Field, phone: Field, city: Field, state: Field,
                            panNumber: Field, idType: Field, govtIdUrl: Field) returns (ok: bool)
      requires Valid()
      modifies this`campaigners, this`nextCampaignerId
      ensures Valid()
      ensures ok <==> NewCampaigner(old(nextCampaignerId), userId, fullName, phone, city, state,
                                    panNumber, idType, govtIdUrl).Some?
      ensures ok ==> && nextCampaignerId == old(nextCampaignerId) + 1
                     && campaigners == old(campaigners)
                                       + [NewCampaigner(old(nextCampaignerId), userId, fullName, phone, city,
                                                        state, panNumber, idType, govtIdUrl).value]
      ensures !ok ==> campaigners == old(campaigners) && nextCampaignerId == old(nextCampaignerId)
    {
      var row := NewCampaigner(nextCampaignerId, userId, fullName, phone, city, state, panNumber, idType, govtIdUrl);
      ok := row.Some?;
      if ok {
        ProfileIdsAppend(campaigners, nextCampaignerId, row.value);
        campaigners := campaigners + [row.value];
        nextCampaignerId := nextCampaignerId + 1;
      }
    }

    /** `INSERT INTO admins (userId, accessCode, enable2FA)`. */
    method InsertAdmin(userId: nat, accessCode: Field, enable2FA: int) returns (ok: bool)
      requires Valid()
      modifies this`admins, this`nextAdminId
      ensures Valid()
      ensures ok <==> accessCode.Some?
      ensures ok ==> && nextAdminId == old(nextAdminId) + 1
                     && admins == old(admins) + [NewAdmin(old(nextAdminId), userId, accessCode, enable2FA).value]
      ensures !ok ==> admins == old(admins) && nextAdminId == old(nextAdminId)
    {
      var row := NewAdmin(nextAdminId, userId, accessCode, enable2FA);
      ok := row.Some?;
      if ok {
        ProfileIdsAppend(admins, nextAdminId, row.value);
        admins := admins + [row.value];
        nextAdminId := nextAdminId + 1;
      }
    }

    /** `INSERT INTO campaigns (...)` of the create route. */
    method InsertCampaign(title: Field, description: Field, targetAmount: Option<int>, category: Field,
                          location: Field, imageUrl: Field, startDate: Field, endDate: Field,
                          organizerId: nat, organizerType: string, now: string) returns (id: Option<nat>)
      requires Valid()
      modifies this`campaigns, this`nextCampaignId
      ensures Valid()
      ensures id.Some? <==> NewCampaign(old(nextCampaignId), title, description, targetAmount, category, location,
                                        imageUrl, startDate, endDate, organizerId, organizerType, now).Some?
      ensures id.Some? ==> && id.value == old(nextCampaignId) && nextCampaignId == old(nextCampaignId) + 1
                           && campaigns == old(campaigns)
                                           + [NewCampaign(id.value, title, description, targetAmount, category,
                                                          location, imageUrl, startDate, endDate, organizerId,
                                                          organizerType, now).value]
      ensures id.None? ==> campaigns == old(campaigns) && nextCampaignId == old(nextCampaignId)
    {
      var row := NewCampaign(nextCampaignId, title, description, targetAmount, category, location, imageUrl,
                             startDate, endDate, organizerId, organizerType, now);
      if row.None? {
        return None;
      }
      CampaignsAppend(campaigns, nextCampaignId, row.value);
      campaigns := campaigns + [row.value];
      id := Some(nextCampaignId);
      nextCampaignId := nextCampaignId + 1;
    }

    /** `UPDATE campaigns SET <rev>, updatedAt = datetime('now') WHERE id = ?`:
        every row with that id is revised in place, the others are kept. */
    method ReviseCampaigns(id: int, rev: Revision, now: string)
      requires Valid()
      modifies this`campaigns
      ensures Valid()
      ensures |campaigns| == |old(campaigns)|
      ensures forall i :: 0 <= i < |campaigns| ==>
                campaigns[i] == if old(campaigns)[i].id == id then Revise(old(campaigns)[i], rev, now)
                                else old(campaigns)[i]
    {
      var src := campaigns;
      var rows := src;
      var i := 0;
      while i < |rows|
        invariant 0 <= i <= |rows| == |src|
        invariant forall j :: 0 <= j < i ==>
                    rows[j] == if src[j].id == id then Revise(src[j], rev, now) else src[j]
        invariant forall j :: i <= j < |rows| ==> rows[j] == src[j]
      {
        if rows[i].id == id {
          rows := rows[i := Revise(rows[i], rev, now)];
        }
        i := i + 1;
      }
      assert forall j :: 0 <= j < |rows| ==> rows[j].id == src[j].id;
      campaigns := rows;
    }

    /** `UPDATE campaigns SET isActive = 0 WHERE id = ? AND organizerId = ?
        AND organizerType = ?`, returning `this.changes`. */
    method DeactivateCampaigns(id: int, organizerId: int, organizerType: string) returns (changes: nat)
      requires Valid()
      modifies this`campaigns
      ensures Valid()
      ensures campaigns == SoftDeleted(old(campaigns), id, organizerId, organizerType)
      ensures changes == Changes(old(campaigns), id, organizerId, organizerType)
    {
      var src := campaigns;
      var rows := src;
      var i := 0;
      changes := 0;
      while i < |rows|
        invariant 0 <= i <= |rows| == |src|
        invariant forall j :: 0 <= j < i ==> rows[j] == Deactivate(src[j], id, organizerId, organizerType)
        invariant forall j :: i <= j < |rows| ==> rows[j] == src[j]
        invariant changes == Changes(src[..i], id, organizerId, organizerType)
      {
        ChangesStep(src, i, id, organizerId, organizerType);
        if OwnedBy(rows[i], id, organizerId, organizerType) {
          rows := rows[i := rows[i].(isActive := 0)];
          changes := changes + 1;
        }
        i := i + 1;
      }
      assert src[..i] == src;
      assert rows == SoftDeleted(src, id, organizerId, organizerType);
      SoftDeletedValid(src, nextCampaignId, id, organizerId, organizerType);
      campaigns := rows;
    }
  }
}
