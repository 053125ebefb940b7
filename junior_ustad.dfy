/** The junior-ustad account routes, soft-delete variant: a super user or a
    teacher lists, creates, edits, archives and (de)activates junior_ustadh
    accounts. Accounts are never removed: archiving flags and deactivates them
    and drops them from the listing. */
module JuniorUstad {
  import opened Common

  /** A user record with the attributes these routes read and write. */
  datatype User = User(
    id: int, firstName: string, lastName: string, phone: string, email: Option<string>,
    passwordHash: string, role: Role, isActive: bool, isArchived: bool,
    archivedAt: Option<nat>, archivedBy: Option<int>, archiveReason: Option<string>,
    createdAt: Option<nat>, updatedAt: Option<nat>, lastLogin: Option<nat>)

  /** The reason recorded when an account is archived. */
  const ArchiveReason: string := "Admin deleted junior ustad account"

  /** The roles `admin_required` lets through. */
  predicate AdminRole(r: Role) {
    r == SuperUser || r == Teacher
  }

  /** `admin_required`: the session's user must exist and be a super user or a
      teacher. Nothing else about the caller (active, archived) is looked at. */
  function AdminRequired(sessionUserId: Option<int>, users: map<int, User>): (g: Guard)
    ensures sessionUserId.None? ==> g == Deny(403, NoSession)
    ensures g.Proceed? <==>
      sessionUserId.Some? && sessionUserId.value in users && AdminRole(users[sessionUserId.value].role)
    ensures g.Deny? ==> g.code == 403
  {
    if sessionUserId.None? then Deny(403, NoSession)
    else if sessionUserId.value !in users || !AdminRole(users[sessionUserId.value].role) then Deny(403, RoleRefused)
    else Proceed
  }

  /** The guard's verdict does not depend on the caller's active or archived flags. */
  lemma GuardIgnoresAccountState(sessionUserId: Option<int>, users: map<int, User>, id: int, active: bool, archived: bool)
    requires id in users
    ensures AdminRequired(sessionUserId, users[id := users[id].(isActive := active, isArchived := archived)])
         == AdminRequired(sessionUserId, users)
  {
  }

  // ---------------------------------------------------------------------------
  // Phone numbers

  /** Some user, of any role and archived or not, has the phone number. */
  predicate PhoneHeld(users: map<int, User>, phone: string) {
    exists id :: id in users && users[id].phone == phone
  }

  /** A user other than `self` has the phone number. */
  predicate PhoneHeldByOther(users: map<int, User>, phone: string, self: int) {
    exists id :: id in users && id != self && users[id].phone == phone
  }

  ghost predicate PhonesUnique(users: map<int, User>) {
    forall a, b :: a in users && b in users && a != b ==> users[a].phone != users[b].phone
  }

  /** Storing a record whose phone no other user holds keeps phone numbers unique. */
  lemma {:induction false} StoreKeepsPhonesUnique(users: map<int, User>, id: int, u: User)
    requires PhonesUnique(users)
    requires !PhoneHeldByOther(users, u.phone, id)
    ensures PhonesUnique(users[id := u])
  {
    var m := users[id := u];
    forall a, b | a in m && b in m && a != b ensures m[a].phone != m[b].phone {
      if a == id {
        assert b != id && b in users;
      } else if b == id {
        assert a in users;
      } else {
        assert a in users && b in users;
      }
    }
  }

  // ---------------------------------------------------------------------------
  // Listing

  /** A row of GET /: the display name joins first and last name with a space. */
  datatype UserView = UserView(
    id: int, name: string, phone: string, email: Option<string>,
    isActive: bool, createdAt: Option<nat>, lastLogin: Option<nat>)

  function DisplayName(u: User): string {
    u.firstName + " " + u.lastName
  }

  function View(u: User): UserView {
    UserView(u.id, DisplayName(u), u.phone, u.email, u.isActive, u.createdAt, u.lastLogin)
  }

  /** The listing's filter: role junior_ustadh and not archived. */
  predicate Listed(u: User) {
    u.role == JuniorUstadh && !u.isArchived
  }

  /** ORDER BY created_at DESC, a missing created_at sorting last. */
  function CreatedKey(u: User): int {
    if u.createdAt.Some? then u.createdAt.value else -1
  }

  function ViewCreatedKey(v: UserView): int {
    if v.createdAt.Some? then v.createdAt.value else -1
  }

  /** The listing query over a table scan. */
  function ListedUsers(rows: seq<User>): (r: seq<User>)
    requires Distinct(rows)
    ensures forall i :: 0 <= i < |r| ==> r[i] in rows && Listed(r[i])
    ensures forall i :: 0 <= i < |rows| && Listed(rows[i]) ==> rows[i] in r
    ensures Distinct(r)
    ensures forall i, j :: 0 <= i < j < |r| ==> CreatedKey(r[j]) <= CreatedKey(r[i])
  {
    SelectThenOrder(rows, Listed, CreatedKey);
    SortDescBy(Filter(rows, Listed), CreatedKey)
  }

  function Views(us: seq<User>): (vs: seq<UserView>)
    ensures |vs| == |us| && forall i :: 0 <= i < |us| ==> vs[i] == View(us[i])
  {
    if us == [] then [] else Views(us[..|us| - 1]) + [View(us[|us| - 1])]
  }

  /** Records picked from a scan of `m` are the records stored under their ids. */
  lemma PickedAreStored(m: map<int, User>, rows: seq<User>, picked: seq<User>)
    requires forall i :: 0 <= i < |rows| ==> rows[i].id in m && m[rows[i].id] == rows[i]
    requires forall i :: 0 <= i < |picked| ==> picked[i] in rows
    ensures forall i :: 0 <= i < |picked| ==> picked[i].id in m && m[picked[i].id] == picked[i]
  {
    forall i | 0 <= i < |picked| ensures picked[i].id in m && m[picked[i].id] == picked[i] {
      assert picked[i] in rows;
      var k :| 0 <= k < |rows| && rows[k] == picked[i];
    }
  }

  /** Each view shows a listed record stored under the view's id. */
  lemma ViewsShowStored(m: map<int, User>, listed: seq<User>)
    requires forall i :: 0 <= i < |listed| ==> listed[i].id in m && m[listed[i].id] == listed[i]
    requires forall i :: 0 <= i < |listed| ==> Listed(listed[i])
    ensures var vs := Views(listed);
      forall i :: 0 <= i < |vs| ==> vs[i].id in m && Listed(m[vs[i].id]) && vs[i] == View(m[vs[i].id])
  {
    var vs := Views(listed);
    forall i | 0 <= i < |vs| ensures vs[i].id in m && Listed(m[vs[i].id]) && vs[i] == View(m[vs[i].id]) {
      assert vs[i] == View(listed[i]);
      assert vs[i].id == listed[i].id;
      assert m[listed[i].id] == listed[i];
    }
  }

  /** Every listed record of `m` has its view among the views of `listed`. */
  lemma ViewsCoverListed(m: map<int, User>, listed: seq<User>)
    requires forall id :: id in m && Listed(m[id]) ==> m[id] in listed
    ensures forall id :: id in m && Listed(m[id]) ==> View(m[id]) in Views(listed)
  {
    var vs := Views(listed);
    forall id | id in m && Listed(m[id]) ensures View(m[id]) in vs {
      assert m[id] in listed;
      var i :| 0 <= i < |listed| && listed[i] == m[id];
      assert vs[i] == View(listed[i]);
    }
  }

  /** The views of distinct stored records carry distinct ids. */
  lemma ViewsDistinctIds(m: map<int, User>, listed: seq<User>)
    requires Distinct(listed)
    requires forall i :: 0 <= i < |listed| ==> listed[i].id in m && m[listed[i].id] == listed[i]
    ensures var vs := Views(listed); forall i, j :: 0 <= i < j < |vs| ==> vs[i].id != vs[j].id
  {
    var vs := Views(listed);
    forall i, j | 0 <= i < j < |vs| ensures vs[i].id != vs[j].id {
      assert listed[i] != listed[j];
      assert vs[i].id == listed[i].id && vs[j].id == listed[j].id;
      assert m[listed[i].id] == listed[i] && m[listed[j].id] == listed[j];
    }
  }

  /** Views keep the created_at order of the records. */
  lemma ViewsKeepOrder(listed: seq<User>)
    requires forall i, j :: 0 <= i < j < |listed| ==> CreatedKey(listed[j]) <= CreatedKey(listed[i])
    ensures var vs := Views(listed);
      forall i, j :: 0 <= i < j < |vs| ==> ViewCreatedKey(vs[j]) <= ViewCreatedKey(vs[i])
  {
    var vs := Views(listed);
    forall i, j | 0 <= i < j < |vs| ensures ViewCreatedKey(vs[j]) <= ViewCreatedKey(vs[i]) {
      assert vs[i] == View(listed[i]) && vs[j] == View(listed[j]);
      assert CreatedKey(listed[j]) <= CreatedKey(listed[i]);
    }
  }

  /** The views of the distinct, listed, stored records `listed`, which hold
      every listed record of `m`, show exactly those records, with distinct ids,
      in the same order. */
  lemma ViewsOfStored(m: map<int, User>, listed: seq<User>)
    requires Distinct(listed)
    requires forall i :: 0 <= i < |listed| ==> listed[i].id in m && m[listed[i].id] == listed[i]
    requires forall i :: 0 <= i < |listed| ==> Listed(listed[i])
    requires forall id :: id in m && Listed(m[id]) ==> m[id] in listed
    requires forall i, j :: 0 <= i < j < |listed| ==> CreatedKey(listed[j]) <= CreatedKey(listed[i])
    ensures var vs := Views(listed);
      && (forall id :: id in m && Listed(m[id]) ==> View(m[id]) in vs)
      && (forall i :: 0 <= i < |vs| ==> vs[i].id in m && Listed(m[vs[i].id]) && vs[i] == View(m[vs[i].id]))
      && (forall i, j :: 0 <= i < j < |vs| ==> vs[i].id != vs[j].id)
      && (forall i, j :: 0 <= i < j < |vs| ==> ViewCreatedKey(vs[j]) <= ViewCreatedKey(vs[i]))
  {
    ViewsCoverListed(m, listed);
    ViewsShowStored(m, listed);
    ViewsDistinctIds(m, listed);
    ViewsKeepOrder(listed);
  }

  /** `vs` is a listing of table `m`: views of listed stored records only,
      every listed record's view, no id twice, most recently created first. */
  ghost predicate IsListingOf(m: map<int, User>, vs: seq<UserView>) {
    && (forall i :: 0 <= i < |vs| ==> vs[i].id in m && Listed(m[vs[i].id]) && vs[i] == View(m[vs[i].id]))
    && (forall id :: id in m && Listed(m[id]) ==> View(m[id]) in vs)
    && (forall i, j :: 0 <= i < j < |vs| ==> vs[i].id != vs[j].id)
    && (forall i, j :: 0 <= i < j < |vs| ==> ViewCreatedKey(vs[j]) <= ViewCreatedKey(vs[i]))
  }

  /** The listing of table `m` from a scan `rows` of it. */
  function ListingOf(m: map<int, User>, rows: seq<User>): (vs: seq<UserView>)
    requires Distinct(rows)
    requires forall i :: 0 <= i < |rows| ==> rows[i].id in m && m[rows[i].id] == rows[i]
    requires forall id :: id in m ==> m[id] in rows
    ensures IsListingOf(m, vs)
  {
    var listed := ListedUsers(rows);
    PickedAreStored(m, rows, listed);
    ViewsOfStored(m, listed);
    Views(listed)
  }

  // ---------------------------------------------------------------------------
  // Request bodies

  /** The keys of a POST / body (a key absent or JSON null is None). */
  datatype CreateFields = CreateFields(
    firstName: Option<string>, lastName: Option<string>, phone: Option<string>,
    password: Option<string>, email: Option<string>)

  /** The keys of a PUT /<id> body. */
  datatype UpdateFields = UpdateFields(
    firstName: Option<string>, lastName: Option<string>, phone: Option<string>,
    email: Option<string>, password: Option<string>, isActive: Option<bool>)

  const RequiredCreateFields: seq<string> := ["first_name", "last_name", "phone", "password"]

  /** `field in data and data[field]`: present and not empty. */
  predicate Filled(f: CreateFields, name: string) {
    match name
    case "first_name" => TextGiven(f.firstName)
    case "last_name" => TextGiven(f.lastName)
    case "phone" => TextGiven(f.phone)
    case "password" => TextGiven(f.password)
    case _ => false
  }

  /** The first of first_name, last_name, phone, password that is missing or empty. */
  function FirstUnfilled(f: CreateFields): Option<string> {
    if !TextGiven(f.firstName) then Some("first_name")
    else if !TextGiven(f.lastName) then Some("last_name")
    else if !TextGiven(f.phone) then Some("phone")
    else if !TextGiven(f.password) then Some("password")
    else None
  }

  /** The reply data of create and update: id, display name, phone. */
  datatype AccountRef = AccountRef(id: int, name: string, phone: string)

  /** `n` is `o` with exactly the present fields of `f` assigned, the password
      re-hashed only when a non-empty one is given, and updated_at set. */
  ghost predicate UserPatchedFrom(o: User, n: User, f: UpdateFields, now: nat, hash: string -> string) {
    && n.id == o.id && n.role == o.role && n.isArchived == o.isArchived
    && n.archivedAt == o.archivedAt && n.archivedBy == o.archivedBy && n.archiveReason == o.archiveReason
    && n.createdAt == o.createdAt && n.lastLogin == o.lastLogin
    && n.updatedAt == Some(now)
    && n.firstName == (if f.firstName.Some? then f.firstName.value else o.firstName)
    && n.lastName == (if f.lastName.Some? then f.lastName.value else o.lastName)
    && n.phone == (if f.phone.Some? then f.phone.value else o.phone)
    && n.email == (if f.email.Some? then f.email else o.email)
    && n.passwordHash == (if TextGiven(f.password) then hash(f.password.value) else o.passwordHash)
    && n.isActive == (if f.isActive.Some? then f.isActive.value else o.isActive)
  }

  /** The field-by-field assignments of PUT /<id> on one record. */
  method PatchUser(u: User, f: UpdateFields, now: nat, hash: string -> string) returns (n: User)
    ensures UserPatchedFrom(u, n, f, now, hash)
  {
    var firstName := if f.firstName.Some? then f.firstName.value else u.firstName;
    var lastName := if f.lastName.Some? then f.lastName.value else u.lastName;
    var phone := if f.phone.Some? then f.phone.value else u.phone;
    var email := if f.email.Some? then f.email else u.email;
    var passwordHash := u.passwordHash;
    if TextGiven(f.password) {
      passwordHash := hash(f.password.value);
    }
    var isActive := if f.isActive.Some? then f.isActive.value else u.isActive;
    n := u.(firstName := firstName, lastName := lastName, phone := phone, email := email,
            passwordHash := passwordHash, isActive := isActive, updatedAt := Some(now));
  }

  /** The id names a junior_ustadh account: the lookup of update, archive and
      toggle filters on id and role only, so archived accounts are found too. */
  predicate IsJuniorUstadh(users: map<int, User>, id: int) {
    id in users && users[id].role == JuniorUstadh
  }

  /** The user table, with an auto-increment id counter. */
  class UserTable {
    var users: map<int, User>
    var nextId: nat

    ghost predicate Valid()
      reads this
    {
      nextId >= 1 && forall id :: id in users ==> 1 <= id < nextId && users[id].id == id
    }

    constructor ()
      ensures Valid() && users == map[] && nextId == 1
    {
      users := map[];
      nextId := 1;
    }

    /** A scan of the table in id order. */
    function Rows(): (rows: seq<User>)
      reads this
      requires Valid()
      ensures Distinct(rows)
      ensures forall i :: 0 <= i < |rows| ==> rows[i].id in users && users[rows[i].id] == rows[i]
      ensures forall id :: id in users ==> users[id] in rows
    {
      Scan(users, nextId, (r: User) => r.id)
    }

    /** GET /: every junior_ustadh account that is not archived, once each,
        most recently created first. */
    function GetJuniorUstads(caller: Option<int>): (r: Reply<seq<UserView>>)
      reads this
      requires Valid()
      ensures r.Fail? <==> AdminRequired(caller, users).Deny?
      ensures r.Fail? ==> r == Fail(403, AdminRequired(caller, users).error)
      ensures r.Ok? ==> r.code == 200 && IsListingOf(users, r.data)
    {
      var g := AdminRequired(caller, users);
      if g.Deny? then Fail(g.code, g.error)
      else
        var m, rows := users, Rows();
        var vs := ListingOf(m, rows);
        Ok(200, vs)
    }

    /** POST /: create a junior_ustadh account. */
    method CreateJuniorUstad(caller: Option<int>, body: Option<CreateFields>, now: nat, hash: string -> string)
      returns (r: Reply<AccountRef>)
      requires Valid()
      modifies this
      ensures Valid()
      ensures AdminRequired(caller, old(users)).Deny? ==> r == Fail(403, AdminRequired(caller, old(users)).error)
      ensures AdminRequired(caller, old(users)).Proceed? && body.None? ==> r == Fail(500, Internal)
      ensures AdminRequired(caller, old(users)).Proceed? && body.Some? && FirstUnfilled(body.value).Some? ==>
        r == Fail(400, FieldRequired(FirstUnfilled(body.value).value))
      ensures (AdminRequired(caller, old(users)).Proceed? && body.Some? && FirstUnfilled(body.value).None? &&
               PhoneHeld(old(users), body.value.phone.value)) ==>
        r == Fail(400, PhoneInUse)
      ensures r.Fail? ==> users == old(users) && nextId == old(nextId)
      ensures r.Ok? <==> (AdminRequired(caller, old(users)).Proceed? && body.Some? &&
                          FirstUnfilled(body.value).None? && !PhoneHeld(old(users), body.value.phone.value))
      ensures r.Ok? ==>
        var f, id := body.value, old(nextId);
        var u := User(id, f.firstName.value, f.lastName.value, f.phone.value, f.email,
                      hash(f.password.value), JuniorUstadh, true, false, None, None, None,
                      Some(now), None, None);
        && id !in old(users)
        && users == old(users)[id := u]
        && nextId == id + 1
        && r == Ok(201, AccountRef(id, DisplayName(u), u.phone))
      ensures old(PhonesUnique(users)) ==> PhonesUnique(users)
    {
      var g := AdminRequired(caller, users);
      if g.Deny? {
        return Fail(g.code, g.error);
      }
      if body.None? {
        return Fail(500, Internal);
      }
      var f := body.value;
      var missing := FirstMissing(RequiredCreateFields, (name: string) => Filled(f, name));
      if missing.Some? {
        ghost var k :| 0 <= k < |RequiredCreateFields| && RequiredCreateFields[k] == missing.value &&
          !Filled(f, RequiredCreateFields[k]) && forall j :: 0 <= j < k ==> Filled(f, RequiredCreateFields[j]);
        assert k > 0 ==> Filled(f, RequiredCreateFields[0]);
        assert k > 1 ==> Filled(f, RequiredCreateFields[1]);
        assert k > 2 ==> Filled(f, RequiredCreateFields[2]);
        return Fail(400, FieldRequired(missing.value));
      }
      assert Filled(f, RequiredCreateFields[0]) && Filled(f, RequiredCreateFields[1]);
      assert Filled(f, RequiredCreateFields[2]) && Filled(f, RequiredCreateFields[3]);
      if PhoneHeld(users, f.phone.value) {
        return Fail(400, PhoneInUse);
      }
      var id := nextId;
      // is_archived, the archive fields, updated_at and last_login take their column defaults
      var u := User(id, f.firstName.value, f.lastName.value, f.phone.value, f.email,
                    hash(f.password.value), JuniorUstadh, true, false, None, None, None,
                    Some(now), None, None);
      assert !PhoneHeldByOther(users, u.phone, id);
      if PhonesUnique(users) {
        StoreKeepsPhonesUnique(users, id, u);
      }
      users := users[id := u];
      nextId := nextId + 1;
      r := Ok(201, AccountRef(id, DisplayName(u), u.phone));
    }

    /** PUT /<id>: a partial update of a junior_ustadh account, archived or not. */
    method UpdateJuniorUstad(caller: Option<int>, id: int, body: Option<UpdateFields>, now: nat, hash: string -> string)
      returns (r: Reply<AccountRef>)
      requires Valid()
      modifies this
      ensures Valid() && nextId == old(nextId)
      ensures AdminRequired(caller, old(users)).Deny? ==> r == Fail(403, AdminRequired(caller, old(users)).error)
      ensures AdminRequired(caller, old(users)).Proceed? && !IsJuniorUstadh(old(users), id) ==> r == Fail(404, NotFound)
      ensures AdminRequired(caller, old(users)).Proceed? && IsJuniorUstadh(old(users), id) && body.None? ==>
        r == Fail(500, Internal)
      // the new phone is checked against every other id; a clash is answered before commit
      ensures (AdminRequired(caller, old(users)).Proceed? && IsJuniorUstadh(old(users), id) && body.Some? &&
               body.value.phone.Some? && PhoneHeldByOther(old(users), body.value.phone.value, id)) ==>
        r == Fail(400, PhoneInUse)
      ensures r.Fail? ==> users == old(users)
      ensures r.Ok? <==> (AdminRequired(caller, old(users)).Proceed? && IsJuniorUstadh(old(users), id) && body.Some? &&
                          !(body.value.phone.Some? && PhoneHeldByOther(old(users), body.value.phone.value, id)))
      ensures r.Ok? ==>
        && id in users
        && users == old(users)[id := users[id]]
        && UserPatchedFrom(old(users)[id], users[id], body.value, now, hash)
        && r == Ok(200, AccountRef(id, DisplayName(users[id]), users[id].phone))
      ensures old(PhonesUnique(users)) ==> PhonesUnique(users)
    {
      var g := AdminRequired(caller, users);
      if g.Deny? {
        return Fail(g.code, g.error);
      }
      if !IsJuniorUstadh(users, id) {
        return Fail(404, NotFound);
      }
      if body.None? {
        return Fail(500, Internal);
      }
      var f := body.value;
      if f.phone.Some? && PhoneHeldByOther(users, f.phone.value, id) {
        return Fail(400, PhoneInUse);
      }
      var n := PatchUser(users[id], f, now, hash);
      if PhonesUnique(users) {
        assert !PhoneHeldByOther(users, n.phone, id);
        StoreKeepsPhonesUnique(users, id, n);
      }
      users := users[id := n];
      r := Ok(200, AccountRef(id, DisplayName(n), n.phone));
    }

    /** DELETE /<id>: archive, never remove. The record stays, flagged archived by
        the caller with the fixed reason, deactivated, and out of the listing. */
    method ArchiveJuniorUstad(caller: Option<int>, id: int, now: nat) returns (r: Reply<()>)
      requires Valid()
      modifies this
      ensures Valid() && nextId == old(nextId)
      ensures AdminRequired(caller, old(users)).Deny? ==> r == Fail(403, AdminRequired(caller, old(users)).error)
      ensures AdminRequired(caller, old(users)).Proceed? && !IsJuniorUstadh(old(users), id) ==> r == Fail(404, NotFound)
      ensures r.Fail? ==> users == old(users)
      ensures r.Ok? <==> AdminRequired(caller, old(users)).Proceed? && IsJuniorUstadh(old(users), id)
      ensures r.Ok? ==>
        && r.code == 200
        && users == old(users)[id := old(users)[id].(
             isArchived := true, archivedAt := Some(now), archivedBy := Some(caller.value),
             archiveReason := Some(ArchiveReason), isActive := false)]
        && id in users && !Listed(users[id])
      ensures old(PhonesUnique(users)) ==> PhonesUnique(users)
    {
      var g := AdminRequired(caller, users);
      if g.Deny? {
        return Fail(g.code, g.error);
      }
      if !IsJuniorUstadh(users, id) {
        return Fail(404, NotFound);
      }
      var u := users[id];
      u := u.(isArchived := true);
      u := u.(archivedAt := Some(now));
      u := u.(archivedBy := Some(caller.value));
      u := u.(archiveReason := Some(ArchiveReason));
      u := u.(isActive := false);
      users := users[id := u];
      r := Ok(200, ());
    }

    /** POST /<id>/toggle-status: flip is_active and answer the new value. */
    method ToggleJuniorUstadStatus(caller: Option<int>, id: int, now: nat) returns (r: Reply<bool>)
      requires Valid()
      modifies this
      ensures Valid() && nextId == old(nextId)
      ensures AdminRequired(caller, old(users)).Deny? ==> r == Fail(403, AdminRequired(caller, old(users)).error)
      ensures AdminRequired(caller, old(users)).Proceed? && !IsJuniorUstadh(old(users), id) ==> r == Fail(404, NotFound)
      ensures r.Fail? ==> users == old(users)
      ensures r.Ok? <==> AdminRequired(caller, old(users)).Proceed? && IsJuniorUstadh(old(users), id)
      ensures r.Ok? ==>
        && r == Ok(200, !old(users)[id].isActive)
        && users == old(users)[id := old(users)[id].(isActive := !old(users)[id].isActive, updatedAt := Some(now))]
      ensures old(PhonesUnique(users)) ==> PhonesUnique(users)
    {
      var g := AdminRequired(caller, users);
      if g.Deny? {
        return Fail(g.code, g.error);
      }
      if !IsJuniorUstadh(users, id) {
        return Fail(404, NotFound);
      }
      var u := users[id];
      u := u.(isActive := !u.isActive);
      u := u.(updatedAt := Some(now));
      users := users[id := u];
      r := Ok(200, u.isActive);
    }
  }

  /** Two toggles in a row leave is_active, role, phone and name as they were. */
  method ToggleTwice(table: UserTable, caller: Option<int>, id: int, t1: nat, t2: nat)
    requires table.Valid()
    requires AdminRequired(caller, table.users).Proceed? && IsJuniorUstadh(table.users, id)
    modifies table
    ensures id in table.users
    ensures var u, o := table.users[id], old(table.users[id]);
      u.isActive == o.isActive && u.role == o.role && u.phone == o.phone && DisplayName(u) == DisplayName(o)
  {
    var first := table.ToggleJuniorUstadStatus(caller, id, t1);
    var second := table.ToggleJuniorUstadStatus(caller, id, t2);
  }
}
