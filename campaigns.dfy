/** server/routes/campaigns.js: the image upload filter, creating a campaign,
    the public listing and lookup, and the owner's update and soft delete.
    The caller of the protected routes is `req.user` as the authentication
    middleware sets it from the token. */
module Campaigns {
  import opened Common
  import opened Text
  import opened Schema
  import opened Store
  import opened Uploads
  import Auth

  // ---------------------------------------------------------------------------
  // Campaign images

  /** The alternatives of /jpeg|jpg|png|gif/. */
  const ImageFileTypes: seq<string> := ["jpeg", "jpg", "png", "gif"]

  const ImageRejection: string := "Only image files are allowed!"

  /** The campaign `fileFilter`: an accepted name has an extension of at
      least three letters after its '.'. */
  function ImageFileFilter(originalname: string, mimetype: string): (ok: bool)
    ensures ok ==> |ExtName(originalname)| > 3
  {
    AcceptedExtensionLength(originalname, mimetype, ImageFileTypes, 3);
    FileFilter(originalname, mimetype, ImageFileTypes)
  }

  /** `upload.single('image')`: disk storage names the file after the time in
      milliseconds, followed by the original extension. */
  function ReceiveImage(file: Option<Upload>, now: nat): (r: Received)
    ensures r.Refused? ==> r == Refused(500, ImageRejection) || r == Refused(400, TooLarge)
    ensures file.Some? && r.Received? ==>
              r.filename.Some? &&
              var name := r.filename.value;
              && |name| > |ExtName(file.value.originalname)|
              && name[|name| - |ExtName(file.value.originalname)|..] == ExtName(file.value.originalname)
              && forall j :: 0 <= j < |name| - |ExtName(file.value.originalname)| ==> '0' <= name[j] <= '9'
  {
    if file.Some? then
      StoredNameParts(Decimal(now), ExtName(file.value.originalname));
      Receive(file, ImageFileTypes, ImageRejection, Decimal(now))
    else Receive(file, ImageFileTypes, ImageRejection, Decimal(now))
  }

  /** The stored image keeps the extension the filter approved. */
  lemma ImageStoredNamePassesFilter(file: Option<Upload>, now: nat)
    requires file.Some? && ReceiveImage(file, now).Received?
    ensures ImageFileFilter(ReceiveImage(file, now).filename.value, file.value.mimetype)
  {
    var d := Decimal(now);
    assert forall j :: 0 <= j < |d| ==> d[j] != '/' && d[j] != '.' by {
      forall j | 0 <= j < |d| ensures d[j] != '/' && d[j] != '.' {
        assert '0' <= d[j] <= '9';
      }
    }
    StoredNamePassesFilter(file, ImageFileTypes, ImageRejection, d);
  }

  /** The two filters differ: a PDF is a valid signup document but never a
      campaign image, whatever its mimetype says. */
  lemma PdfOnlyAtSignup(stem: string, mimetype: string)
    requires stem != [] && forall j :: 0 <= j < |stem| ==> stem[j] != '/'
    ensures !ImageFileFilter(stem + ".pdf", mimetype)
    ensures Auth.SignupFileFilter(stem + ".pdf", "application/pdf")
  {
    ExtNameOfFileName(stem, "pdf");
    assert stem + "." + "pdf" == stem + ".pdf";
    Auth.PdfMatches();
    PdfIsNoImage();
    PdfMimetypeAtSignup();
  }

  /** ... and a GIF is a valid campaign image but never a signup document. */
  lemma GifOnlyForCampaigns(stem: string)
    requires stem != [] && forall j :: 0 <= j < |stem| ==> stem[j] != '/'
    ensures ImageFileFilter(stem + ".gif", "image/gif")
    ensures !Auth.SignupFileFilter(stem + ".gif", "image/gif")
  {
    ExtNameOfFileName(stem, "gif");
    assert stem + "." + "gif" == stem + ".gif";
    GifMatches();
  }

  lemma PdfIsNoImage()
    ensures !MatchesAny(ToLower(".pdf"), ImageFileTypes)
  {
    var e := ToLower(".pdf");
    assert e == ".pdf" by {
      assert e[0] == LowerChar('.') && e[1] == LowerChar('p') && e[2] == LowerChar('d') && e[3] == LowerChar('f');
    }
    PdfIsNoImageWord(0);
    PdfIsNoImageWord(1);
    PdfIsNoImageWord(2);
    PdfIsNoImageWord(3);
  }

  lemma PdfIsNoImageWord(k: nat)
    requires k < |ImageFileTypes|
    ensures !Contains(".pdf", ImageFileTypes[k])
  {
    var w := ImageFileTypes[k];
    forall i: nat | i + |w| <= 4 ensures !OccursAt(".pdf", w, i) {
      assert ".pdf"[i..i + |w|][0] == ".pdf"[i] && ".pdf"[i..i + |w|][1] == ".pdf"[i + 1];
    }
  }

  lemma PdfMimetypeAtSignup()
    ensures MatchesAny("application/pdf", Auth.SignupFileTypes)
  {
    assert OccursAt("application/pdf", "pdf", 12);
    assert Contains("application/pdf", Auth.SignupFileTypes[3]);
  }

  lemma GifMatches()
    ensures MatchesAny(ToLower(".gif"), ImageFileTypes) && MatchesAny("image/gif", ImageFileTypes)
    ensures !MatchesAny(ToLower(".gif"), Auth.SignupFileTypes)
  {
    var e := ToLower(".gif");
    assert e == ".gif" by {
      assert e[0] == LowerChar('.') && e[1] == LowerChar('g') && e[2] == LowerChar('i') && e[3] == LowerChar('f');
    }
    assert OccursAt(e, "gif", 1);
    assert Contains(e, ImageFileTypes[3]);
    assert OccursAt("image/gif", "gif", 6);
    assert Contains("image/gif", ImageFileTypes[3]);
    GifIsNoDocumentWord(0);
    GifIsNoDocumentWord(1);
    GifIsNoDocumentWord(2);
    GifIsNoDocumentWord(3);
  }

  lemma GifIsNoDocumentWord(k: nat)
    requires k < |Auth.SignupFileTypes|
    ensures !Contains(".gif", Auth.SignupFileTypes[k])
  {
    var w := Auth.SignupFileTypes[k];
    forall i: nat | i + |w| <= 4 ensures !OccursAt(".gif", w, i) {
      assert ".gif"[i..i + |w|][0] == ".gif"[i];
    }
  }

  // ---------------------------------------------------------------------------
  // Create

  /** `req.user`: the id and role name the token carries. */
  datatype Caller = Caller(id: nat, userType: string)

  datatype CreatedReply = CreatedReply(id: nat, message: string)

  /** `'/uploads/' + req.file.filename`, or null without a file. */
  function ImageUrl(filename: Field): (url: Field)
    ensures url.Some? <==> filename.Some?
    ensures url.Some? ==> |url.value| >= 9 && url.value[..9] == "/uploads/" && url.value[9..] == filename.value
  {
    match filename
    case None => None
    case Some(f) => Some("/uploads/" + f)
  }

  /** POST / (the handler, once the image upload received `image`). The row
      gets the caller as organizer, currentAmount 0, isActive 1 and the
      current time; the INSERT fails on a missing NOT NULL value or a caller
      role other than ngo or campaigner. */
  method CreateCampaign(db: Db, caller: Caller, image: Field, title: Field, description: Field,
                        targetAmount: Option<int>, category: Field, location: Field, startDate: Field,
                        endDate: Field, now: string) returns (res: Response<CreatedReply>)
    requires db.Valid()
    modifies db`campaigns, db`nextCampaignId
    ensures db.Valid()
    ensures var row := NewCampaign(old(db.nextCampaignId), title, description, targetAmount, category, location,
                                   ImageUrl(image), startDate, endDate, caller.id, caller.userType, now);
            && (row.None? ==> res == Err(500, "Failed to create campaign") && unchanged(db))
            && (row.Some? ==> && res == Ok(201, CreatedReply(row.value.id, "Campaign created successfully"))
                              && db.campaigns == old(db.campaigns) + [row.value]
                              && db.nextCampaignId == old(db.nextCampaignId) + 1)
  {
    var imageUrl := ImageUrl(image);
    var id := db.InsertCampaign(title, description, targetAmount, category, location, imageUrl,
                                startDate, endDate, caller.id, caller.userType, now);
    if id.None? {
      return Err(500, "Failed to create campaign");
    }
    res := Ok(201, CreatedReply(id.value, "Campaign created successfully"));
  }

  // ---------------------------------------------------------------------------
  // List and get

  /** `WHERE c.isActive = 1`, in table order. */
  function ActiveRows(rows: seq<CampaignRow>): (r: seq<CampaignRow>)
    ensures forall i :: 0 <= i < |r| ==> r[i].isActive == 1
    ensures forall c :: c in r <==> c in rows && c.isActive == 1
    ensures multiset(r) <= multiset(rows)
  {
    if rows == [] then []
    else
      var rest := ActiveRows(rows[1..]);
      assert rows == [rows[0]] + rows[1..];
      if rows[0].isActive == 1 then [rows[0]] + rest else rest
  }

  /** `ORDER BY c.createdAt DESC` under SQLite's BINARY collation. */
  ghost predicate NewestFirst(s: seq<CampaignRow>)
  {
    forall i, j :: 0 <= i < j < |s| ==> StrLe(s[j].createdAt, s[i].createdAt)
  }

  function InsertNewestFirst(c: CampaignRow, s: seq<CampaignRow>): (r: seq<CampaignRow>)
    requires NewestFirst(s)
    ensures NewestFirst(r)
    ensures multiset(r) == multiset(s) + multiset{c}
  {
    if s == [] then [c]
    else if StrLe(s[0].createdAt, c.createdAt) then
      PrependNewest(c, s);
      [c] + s
    else
      StrLeTotal(c.createdAt, s[0].createdAt);
      var t := InsertNewestFirst(c, s[1..]);
      assert s == [s[0]] + s[1..];
      PrependBelow(s[0], c, s[1..], t);
      [s[0]] + t
  }

  lemma PrependNewest(c: CampaignRow, s: seq<CampaignRow>)
    requires NewestFirst(s) && s != [] && StrLe(s[0].createdAt, c.createdAt)
    ensures NewestFirst([c] + s)
  {
    var r := [c] + s;
    forall i, j | 0 <= i < j < |r| ensures StrLe(r[j].createdAt, r[i].createdAt) {
      if i == 0 {
        assert r[j] == s[j - 1];
        if j > 1 {
          StrLeTransitive(s[j - 1].createdAt, s[0].createdAt, c.createdAt);
        }
      } else {
        assert r[i] == s[i - 1] && r[j] == s[j - 1];
      }
    }
  }

  lemma PrependBelow(h: CampaignRow, c: CampaignRow, u: seq<CampaignRow>, t: seq<CampaignRow>)
    requires NewestFirst([h] + u) && NewestFirst(t)
    requires StrLe(c.createdAt, h.createdAt)
    requires multiset(t) == multiset(u) + multiset{c}
    ensures NewestFirst([h] + t)
  {
    var r := [h] + t;
    forall i, j | 0 <= i < j < |r| ensures StrLe(r[j].createdAt, r[i].createdAt) {
      if i == 0 {
        var y := t[j - 1];
        assert r[0] == h && r[j] == y;
        assert y in multiset(t);
        if y != c {
          assert y in multiset(u);
          var k :| 0 <= k < |u| && u[k] == y;
          assert ([h] + u)[0] == h && ([h] + u)[k + 1] == y;
        }
      } else {
        assert r[i] == t[i - 1] && r[j] == t[j - 1];
      }
    }
  }

  function SortNewestFirst(s: seq<CampaignRow>): (r: seq<CampaignRow>)
    ensures NewestFirst(r)
    ensures multiset(r) == multiset(s)
  {
    if s == [] then []
    else
      assert s == [s[0]] + s[1..];
      InsertNewestFirst(s[0], SortNewestFirst(s[1..]))
  }

  lemma SameElements(a: seq<CampaignRow>, b: seq<CampaignRow>)
    requires multiset(a) == multiset(b)
    ensures forall c :: c in a <==> c in b
  {
    forall c ensures c in a <==> c in b {
      assert c in a <==> c in multiset(a);
      assert c in b <==> c in multiset(b);
    }
  }

  /** GET /: the active campaigns, newest first. */
  function ListCampaigns(rows: seq<CampaignRow>): (r: seq<CampaignRow>)
    ensures forall i :: 0 <= i < |r| ==> r[i].isActive == 1
    ensures forall c :: c in r <==> c in rows && c.isActive == 1
    ensures multiset(r) == multiset(ActiveRows(rows))
    ensures NewestFirst(r)
  {
    var r := SortNewestFirst(ActiveRows(rows));
    SameElements(r, ActiveRows(rows));
    r
  }

  const CampaignNotFound: string := "Campaign not found"

  /** GET /:id: the campaign with that id while it is active, 404 otherwise. */
  function GetCampaign(rows: seq<CampaignRow>, id: int): (r: Response<CampaignRow>)
    ensures r.Ok? <==> exists i :: 0 <= i < |rows| && rows[i].id == id && rows[i].isActive == 1
    ensures r.Ok? ==> r.status == 200 && r.body in rows && r.body.id == id && r.body.isActive == 1
    ensures r.Err? ==> r == Err(404, CampaignNotFound)
    ensures !r.NoResponse?
  {
    match First(rows, (c: CampaignRow) => c.id == id && c.isActive == 1)
    case None => Err(404, CampaignNotFound)
    case Some(k) => Ok(200, rows[k])
  }

  /** The listing and the lookup agree: every listed campaign is what GET
      /:id returns for its id. */
  lemma ListedCampaignsFound(rows: seq<CampaignRow>, nextId: nat, c: CampaignRow)
    requires CampaignsValid(rows, nextId)
    requires c in ListCampaigns(rows)
    ensures GetCampaign(rows, c.id) == Ok(200, c)
  {
    var k :| 0 <= k < |rows| && rows[k] == c;
    var r := GetCampaign(rows, c.id);
    var j :| 0 <= j < |rows| && rows[j] == r.body;
    assert j == k;
  }

  /** A created campaign is visible at once. */
  lemma CreatedCampaignVisible(rows: seq<CampaignRow>, nextId: nat, c: CampaignRow)
    requires CampaignsValid(rows, nextId) && c.id == nextId && c.isActive == 1
    ensures GetCampaign(rows + [c], c.id) == Ok(200, c)
    ensures c in ListCampaigns(rows + [c])
  {
    var all := rows + [c];
    assert all[|rows|] == c;
    var r := GetCampaign(all, c.id);
    var j :| 0 <= j < |all| && all[j] == r.body;
    if j < |rows| {
      assert all[j] == rows[j];
    }
  }

  // ---------------------------------------------------------------------------
  // Update and soft delete

  const UpdateForbidden: string := "Not authorized to update this campaign"
  const DeleteForbidden: string := "Not authorized to delete this campaign"

  /** PUT /:id (the handler, once the image upload received `image`). Only a
      row with that id whose organizer is the caller may be changed (403
      otherwise). Without a new image the old imageUrl is kept. The SET list
      overwrites the eight named columns and updatedAt; a NULL for a NOT NULL
      column makes the UPDATE fail with nothing changed. */
  method UpdateCampaign(db: Db, caller: Caller, id: int, image: Field, title: Field, description: Field,
                        targetAmount: Option<int>, category: Field, location: Field, startDate: Field,
                        endDate: Field, now: string) returns (res: Response<string>)
    requires db.Valid()
    modifies db`campaigns
    ensures db.Valid()
    ensures (forall k :: 0 <= k < |old(db.campaigns)| ==> !OwnedBy(old(db.campaigns)[k], id, caller.id, caller.userType))
            ==> res == Err(403, UpdateForbidden) && unchanged(db)
    ensures forall k :: 0 <= k < |old(db.campaigns)| && OwnedBy(old(db.campaigns)[k], id, caller.id, caller.userType) ==>
              var c := old(db.campaigns)[k];
              var rev := NewRevision(title, description, targetAmount, category, location,
                                     if image.Some? then ImageUrl(image) else c.imageUrl, startDate, endDate);
              && (rev.None? ==> res == Err(500, "Failed to update campaign") && unchanged(db))
              && (rev.Some? ==> && res == Ok(200, "Campaign updated successfully")
                                && db.campaigns == old(db.campaigns)[k := Revise(c, rev.value, now)])
  {
    // SELECT * FROM campaigns WHERE id = ? AND organizerId = ? AND organizerType = ?
    var found := First(db.campaigns, (c: CampaignRow) => OwnedBy(c, id, caller.id, caller.userType));
    if found.None? {
      return Err(403, UpdateForbidden);
    }
    var k := found.value;
    var campaign := db.campaigns[k];
    assert forall j :: 0 <= j < |db.campaigns| && db.campaigns[j].id == id ==> j == k;
    var imageUrl := if image.Some? then ImageUrl(image) else campaign.imageUrl;
    var rev := NewRevision(title, description, targetAmount, category, location, imageUrl, startDate, endDate);
    if rev.None? {
      return Err(500, "Failed to update campaign");
    }
    ghost var before := db.campaigns;
    db.ReviseCampaigns(id, rev.value, now);
    assert db.campaigns == before[k := Revise(campaign, rev.value, now)];
    res := Ok(200, "Campaign updated successfully");
  }

  /** DELETE /:id: marks the caller's campaign inactive. The WHERE clause
      does not test isActive, so a repeated delete by the owner succeeds
      again; no matching row is 403 with nothing changed. */
  method DeleteCampaign(db: Db, caller: Caller, id: int) returns (res: Response<string>)
    requires db.Valid()
    modifies db`campaigns
    ensures db.Valid()
    ensures db.campaigns == SoftDeleted(old(db.campaigns), id, caller.id, caller.userType)
    ensures Changes(old(db.campaigns), id, caller.id, caller.userType) == 0 ==>
              res == Err(403, DeleteForbidden) && unchanged(db)
    ensures Changes(old(db.campaigns), id, caller.id, caller.userType) > 0 ==>
              res == Ok(200, "Campaign deleted successfully")
  {
    NoChangesNoEffect(db.campaigns, id, caller.id, caller.userType);
    var changes := db.DeactivateCampaigns(id, caller.id, caller.userType);
    if changes == 0 {
      return Err(403, DeleteForbidden);
    }
    res := Ok(200, "Campaign deleted successfully");
  }

  /** After the owner's delete the campaign is gone from GET /:id ... */
  lemma DeletedCampaignHidden(rows: seq<CampaignRow>, nextId: nat, caller: Caller, id: int)
    requires CampaignsValid(rows, nextId)
    requires Changes(rows, id, caller.id, caller.userType) > 0
    ensures GetCampaign(SoftDeleted(rows, id, caller.id, caller.userType), id) == Err(404, CampaignNotFound)
  {
    NoChangesNoEffect(rows, id, caller.id, caller.userType);
    var k :| 0 <= k < |rows| && OwnedBy(rows[k], id, caller.id, caller.userType);
    var after := SoftDeleted(rows, id, caller.id, caller.userType);
    forall i | 0 <= i < |after| && after[i].id == id ensures after[i].isActive != 1 {
      assert rows[i].id == rows[k].id;
    }
  }

  /** ... and from the listing; the caller's other campaigns are untouched. */
  lemma DeletedCampaignUnlisted(rows: seq<CampaignRow>, caller: Caller, id: int)
    ensures forall c :: c in ListCampaigns(SoftDeleted(rows, id, caller.id, caller.userType)) ==>
              !OwnedBy(c, id, caller.id, caller.userType)
    ensures forall c :: c in ListCampaigns(rows) && c.id != id ==>
              c in ListCampaigns(SoftDeleted(rows, id, caller.id, caller.userType))
  {
    var after := SoftDeleted(rows, id, caller.id, caller.userType);
    forall c | c in ListCampaigns(rows) && c.id != id
      ensures c in after
    {
      var k :| 0 <= k < |rows| && rows[k] == c;
      assert after[k] == c;
    }
  }
}
