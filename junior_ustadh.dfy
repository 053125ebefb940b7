/** The junior-ustadh account routes, hard-delete variant: a teacher or super
    user lists, creates, edits and deletes junior_ustadh accounts that carry a
    single name and phone field. Nothing is archived; delete removes the row. */
module JuniorUstadh {
  import opened Common

  /** A user record with the attributes these routes read and write, and the
      active and archived flags that the soft-delete variant sets on the same
      table and that these routes never look at. */
  datatype Account = Account(
    id: int, name: string, phone: string, email: string, passwordHash: string,
    role: Role, isActive: bool, isArchived: bool, createdAt: Option<nat>)

  /** The roles `teacher_required` lets through. */
  predicate TeacherRole(r: Role) {
    r == Teacher || r == SuperUser
  }

  /** `teacher_required`: 401 without a session, 403 for an unknown caller or a
      role other than teacher and super user. The caller's account state is not
      looked at. */
  function TeacherRequired(sessionUserId: Option<int>, users: map<int, Account>): (g: Guard)
    ensures sessionUserId.None? <==> g == Deny(401, NoSession)
    ensures g.Proceed? <==>
      sessionUserId.Some? && sessionUserId.value in users && TeacherRole(users[sessionUserId.value].role)
    ensures g.Deny? && sessionUserId.Some? ==> g == Deny(403, RoleRefused)
  {
    if sessionUserId.None? then Deny(401, NoSession)
    else if sessionUserId.value !in users || !TeacherRole(users[sessionUserId.value].role) then Deny(403, RoleRefused)
    else Proceed
  }

  /** The guard's verdict does not depend on the caller's active or archived flags. */
  lemma GuardIgnoresAccountState(sessionUserId: Option<int>, users: map<int, Account>, id: int, active: bool, archived: bool)
    requires id in users
    ensures TeacherRequired(sessionUserId, users[id := users[id].(isActive := active, isArchived := archived)])
         == TeacherRequired(sessionUserId, users)
  {
  }

  // ---------------------------------------------------------------------------
  // Phone numbers

  /** Some user of any role has the phone number. */
  predicate PhoneHeld(users: map<int, Account>, phone: string) {
    exists id :: id in users && users[id].phone == phone
  }

  ghost predicate PhonesUnique(users: map<int, Account>) {
    forall a, b :: a in users && b in users && a != b ==> users[a].phone != users[b].phone
  }

  /** Storing under `id` a record that keeps the phone stored there, or takes a
      phone nobody holds, keeps phone numbers unique. */
  lemma {:induction false} StoreKeepsPhonesUnique(users: map<int, Account>, id: int, u: Account)
    requires PhonesUnique(users)
    requires (id in users && u.phone == users[id].phone) || !PhoneHeld(users, u.phone)
    ensures PhonesUnique(users[id := u])
  {
    var m := users[id := u];
    forall a, b | a in m && b in m && a != b ensures m[a].phone != m[b].phone {
      if a == id {
        assert b != id && b in users;
      } else if b == id {
        assert a in users;
      } else {
        assert a in users && b in users;
      }
    }
  }

  /** Removing a record keeps phone numbers unique. */
  lemma RemoveKeepsPhonesUnique(users: map<int, Account>, id: int)
    requires PhonesUnique(users)
    ensures PhonesUnique(users - {id})
  {
  }

  // ---------------------------------------------------------------------------
  // Replies and request bodies

  /** A row of GET /junior-ustadhs. */
  datatype AccountView = AccountView(id: int, name: string, phone: string, createdAt: Option<nat>, email: string)

  function View(a: Account): AccountView {
    AccountView(a.id, a.name, a.phone, a.createdAt, a.email)
  }

  datatype AccountListing = AccountListing(accounts: seq<AccountView>, total: int)

  /** The reply data of create. */
  datatype AccountRef = AccountRef(id: int, name: string, phone: string)

  /** The reply data of update. */
  datatype AccountDetails = AccountDetails(id: int, name: string, phone: string, email: string)

  /** The keys of a POST body (a key absent or JSON null is None, so a null
      email is stored as "" on create, and on update leaves the old email). */
  datatype CreateFields = CreateFields(
    name: Option<string>, phone: Option<string>, password: Option<string>, email: Option<string>)

  /** The keys of a PUT body. */
  datatype UpdateFields = UpdateFields(
    name: Option<string>, phone: Option<string>, email: Option<string>, password: Option<string>)

  const RequiredCreateFields: seq<string> := ["name", "phone", "password"]

  /** `data.get(field)` is truthy: present and not empty. */
  predicate Filled(f: CreateFields, field: string) {
    match field
    case "name" => TextGiven(f.name)
    case "phone" => TextGiven(f.phone)
    case "password" => TextGiven(f.password)
    case _ => false
  }

  /** The first of name, phone, password that is missing or empty. */
  function FirstUnfilled(f: CreateFields): Option<string> {
    if !TextGiven(f.name) then Some("name")
    else if !TextGiven(f.phone) then Some("phone")
    else if !TextGiven(f.password) then Some("password")
    else None
  }

  /** The update's phone check: a new phone, different from the current one,
      that some user already holds. */
  predicate PhoneClash(users: map<int, Account>, id: int, f: UpdateFields)
    requires id in users
  {
    f.phone.Some? && f.phone.value != users[id].phone && PhoneHeld(users, f.phone.value)
  }

  /** `n` is `o` with the present fields of `f` assigned and the password
      re-hashed only when a non-empty one is given; nothing else changes. */
  ghost predicate AccountPatchedFrom(o: Account, n: Account, f: UpdateFields, hash: string -> string) {
    && n.id == o.id && n.role == o.role && n.createdAt == o.createdAt
    && n.isActive == o.isActive && n.isArchived == o.isArchived
    && n.name == (if f.name.Some? then f.name.value else o.name)
    && n.phone == (if f.phone.Some? then f.phone.value else o.phone)
    && n.email == (if f.email.Some? then f.email.value else o.email)
    && n.passwordHash == (if TextGiven(f.password) then hash(f.password.value) else o.passwordHash)
  }

  /** The field-by-field assignments of PUT on one record. */
  method PatchAccount(a: Account, f: UpdateFields, hash: string -> string) returns (n: Account)
    ensures AccountPatchedFrom(a, n, f, hash)
  {
    n := a;
    if f.name.Some? {
      n := n.(name := f.name.value);
    }
    if f.phone.Some? && f.phone.value != n.phone {
      n := n.(phone := f.phone.value);
    }
    if f.email.Some? {
      n := n.(email := f.email.value);
    }
    if TextGiven(f.password) {
      n := n.(passwordHash := hash(f.password.value));
    }
  }

  /** The listing's filter (role only, no archive filter) and the lookup of
      update and delete. */
  predicate IsJuniorUstadh(users: map<int, Account>, id: int) {
    id in users && users[id].role == JuniorUstadh
  }

  /** Changing an account's active or archived flags changes neither which ids
      the listing and the lookups select nor what the listing shows. */
  lemma SelectionIgnoresAccountState(users: map<int, Account>, id: int, active: bool, archived: bool)
    requires id in users
    ensures var changed := users[id := users[id].(isActive := active, isArchived := archived)];
      && (forall k :: IsJuniorUstadh(changed, k) <==> IsJuniorUstadh(users, k))
      && View(changed[id]) == View(users[id])
  {
  }

  /** The append loop of GET /junior-ustadhs over a scan `rows` of table `m`:
      the views of the junior_ustadh rows, in scan order. */
  method CollectJuniors(m: map<int, Account>, rows: seq<Account>) returns (data: seq<AccountView>)
    requires forall i :: 0 <= i < |rows| ==> rows[i].id in m && m[rows[i].id] == rows[i]
    requires forall i, j :: 0 <= i < j < |rows| ==> rows[i].id < rows[j].id
    ensures forall k :: 0 <= k < |data| ==> IsJuniorUstadh(m, data[k].id) && data[k] == View(m[data[k].id])
    ensures forall k :: 0 <= k < |rows| && rows[k].role == JuniorUstadh ==>
      exists t :: 0 <= t < |data| && data[t].id == rows[k].id
    ensures forall a, b :: 0 <= a < b < |data| ==> data[a].id < data[b].id
  {
    data := [];
    var i := 0;
    while i < |rows|
      invariant 0 <= i <= |rows|
      invariant forall k :: 0 <= k < |data| ==> IsJuniorUstadh(m, data[k].id) && data[k] == View(m[data[k].id])
      invariant forall k :: 0 <= k < i && rows[k].role == JuniorUstadh ==>
        exists t :: 0 <= t < |data| && data[t].id == rows[k].id
      invariant forall a, b :: 0 <= a < b < |data| ==> data[a].id < data[b].id
      invariant forall k, j :: 0 <= k < |data| && i <= j < |rows| ==> data[k].id < rows[j].id
    {
      var ju := rows[i];
      if ju.role == JuniorUstadh {
        ghost var before := data;
        data := data + [View(ju)];
        forall k | 0 <= k <= i && rows[k].role == JuniorUstadh
          ensures exists t :: 0 <= t < |data| && data[t].id == rows[k].id
        {
          if k == i {
            assert data[|before|].id == rows[k].id;
          } else {
            var t :| 0 <= t < |before| && before[t].id == rows[k].id;
            assert data[t].id == rows[k].id;
          }
        }
      }
      i := i + 1;
    }
  }

  /** The user table, with an auto-increment id counter. */
  class AccountTable {
    var users: map<int, Account>
    var nextId: nat

    ghost predicate Valid()
      reads this
    {
      nextId >= 1 && forall id :: id in users ==> 1 <= id < nextId && users[id].id == id
    }

    constructor ()
      ensures Valid() && users == map[] && nextId == 1
    {
      users := map[];
      nextId := 1;
    }

    /** A scan of the table in id order. */
    function Rows(): (rows: seq<Account>)
      reads this
      requires Valid()
      ensures forall i :: 0 <= i < |rows| ==> rows[i].id in users && users[rows[i].id] == rows[i]
      ensures forall i, j :: 0 <= i < j < |rows| ==> rows[i].id < rows[j].id
      ensures forall id :: id in users ==> users[id] in rows
    {
      Scan(users, nextId, (r: Account) => r.id)
    }

    /** GET /junior-ustadhs: every junior_ustadh account, archived or not, once
        each (in scan order), with its count. */
    method GetJuniorUstadhs(caller: Option<int>) returns (r: Reply<AccountListing>)
      requires Valid()
      ensures r.Fail? <==> TeacherRequired(caller, users).Deny?
      ensures r.Fail? ==> r == Fail(TeacherRequired(caller, users).code, TeacherRequired(caller, users).error)
      ensures r.Ok? ==> r.code == 200 && r.data.total == |r.data.accounts|
      ensures r.Ok? ==> forall k :: 0 <= k < |r.data.accounts| ==>
        IsJuniorUstadh(users, r.data.accounts[k].id) && r.data.accounts[k] == View(users[r.data.accounts[k].id])
      ensures r.Ok? ==> forall id :: IsJuniorUstadh(users, id) ==> View(users[id]) in r.data.accounts
      ensures r.Ok? ==> forall a, b :: 0 <= a < b < |r.data.accounts| ==>
        r.data.accounts[a].id < r.data.accounts[b].id
    {
      var g := TeacherRequired(caller, users);
      if g.Deny? {
        return Fail(g.code, g.error);
      }
      var rows := Rows();
      var data := CollectJuniors(users, rows);
      assert forall id :: IsJuniorUstadh(users, id) ==> View(users[id]) in data by {
        forall id | IsJuniorUstadh(users, id) ensures View(users[id]) in data {
          var k :| 0 <= k < |rows| && rows[k] == users[id];
          var t :| 0 <= t < |data| && data[t].id == rows[k].id;
          assert data[t] == View(users[id]);
        }
      }
      return Ok(200, AccountListing(data, |data|));
    }

    /** POST /junior-ustadhs: create an account; email defaults to "". */
    method CreateJuniorUstadh(caller: Option<int>, body: Option<CreateFields>, now: nat, hash: string -> string)
      returns (r: Reply<AccountRef>)
      requires Valid()
      modifies this
      ensures Valid()
      ensures TeacherRequired(caller, old(users)).Deny? ==>
        r == Fail(TeacherRequired(caller, old(users)).code, TeacherRequired(caller, old(users)).error)
      ensures TeacherRequired(caller, old(users)).Proceed? && body.None? ==> r == Fail(500, Internal)
      ensures TeacherRequired(caller, old(users)).Proceed? && body.Some? && FirstUnfilled(body.value).Some? ==>
        r == Fail(400, FieldRequired(FirstUnfilled(body.value).value))
      ensures (TeacherRequired(caller, old(users)).Proceed? && body.Some? && FirstUnfilled(body.value).None? &&
               PhoneHeld(old(users), body.value.phone.value)) ==>
        r == Fail(400, PhoneInUse)
      ensures r.Fail? ==> users == old(users) && nextId == old(nextId)
      ensures r.Ok? <==> (TeacherRequired(caller, old(users)).Proceed? && body.Some? &&
                          FirstUnfilled(body.value).None? && !PhoneHeld(old(users), body.value.phone.value))
      ensures r.Ok? ==>
        var f, id := body.value, old(nextId);
        var a := Account(id, f.name.value, f.phone.value, if f.email.Some? then f.email.value else "",
                         hash(f.password.value), JuniorUstadh, true, false, Some(now));
        && id !in old(users)
        && users == old(users)[id := a]
        && nextId == id + 1
        && r == Ok(201, AccountRef(id, a.name, a.phone))
      ensures old(PhonesUnique(users)) ==> PhonesUnique(users)
    {
      var g := TeacherRequired(caller, users);
      if g.Deny? {
        return Fail(g.code, g.error);
      }
      if body.None? {
        return Fail(500, Internal);
      }
      var f := body.value;
      var missing := FirstMissing(RequiredCreateFields, (field: string) => Filled(f, field));
      if missing.Some? {
        ghost var k :| 0 <= k < |RequiredCreateFields| && RequiredCreateFields[k] == missing.value &&
          !Filled(f, RequiredCreateFields[k]) && forall j :: 0 <= j < k ==> Filled(f, RequiredCreateFields[j]);
        assert k > 0 ==> Filled(f, RequiredCreateFields[0]);
        assert k > 1 ==> Filled(f, RequiredCreateFields[1]);
        return Fail(400, FieldRequired(missing.value));
      }
      assert Filled(f, RequiredCreateFields[0]) && Filled(f, RequiredCreateFields[1]) && Filled(f, RequiredCreateFields[2]);
      if PhoneHeld(users, f.phone.value) {
        return Fail(400, PhoneInUse);
      }
      var id := nextId;
      // is_active and is_archived take their column defaults
      var a := Account(id, f.name.value, f.phone.value, if f.email.Some? then f.email.value else "",
                       hash(f.password.value), JuniorUstadh, true, false, Some(now));
      if PhonesUnique(users) {
        StoreKeepsPhonesUnique(users, id, a);
      }
      users := users[id := a];
      nextId := nextId + 1;
      r := Ok(201, AccountRef(id, a.name, a.phone));
    }

    /** PUT /junior-ustadhs/<id>: a partial update; the phone is checked only
        when it changes. */
    method UpdateJuniorUstadh(caller: Option<int>, id: int, body: Option<UpdateFields>, hash: string -> string)
      returns (r: Reply<AccountDetails>)
      requires Valid()
      modifies this
      ensures Valid() && nextId == old(nextId)
      ensures TeacherRequired(caller, old(users)).Deny? ==>
        r == Fail(TeacherRequired(caller, old(users)).code, TeacherRequired(caller, old(users)).error)
      ensures TeacherRequired(caller, old(users)).Proceed? && !IsJuniorUstadh(old(users), id) ==> r == Fail(404, NotFound)
      ensures TeacherRequired(caller, old(users)).Proceed? && IsJuniorUstadh(old(users), id) && body.None? ==>
        r == Fail(500, Internal)
      ensures (TeacherRequired(caller, old(users)).Proceed? && IsJuniorUstadh(old(users), id) && body.Some? &&
               PhoneClash(old(users), id, body.value)) ==>
        r == Fail(400, PhoneInUse)
      ensures r.Fail? ==> users == old(users)
      ensures r.Ok? <==> (TeacherRequired(caller, old(users)).Proceed? && IsJuniorUstadh(old(users), id) &&
                          body.Some? && !PhoneClash(old(users), id, body.value))
      ensures r.Ok? ==>
        && id in users
        && users == old(users)[id := users[id]]
        && AccountPatchedFrom(old(users)[id], users[id], body.value, hash)
        && r == Ok(200, AccountDetails(id, users[id].name, users[id].phone, users[id].email))
      ensures old(PhonesUnique(users)) ==> PhonesUnique(users)
    {
      var g := TeacherRequired(caller, users);
      if g.Deny? {
        return Fail(g.code, g.error);
      }
      if !IsJuniorUstadh(users, id) {
        return Fail(404, NotFound);
      }
      if body.None? {
        return Fail(500, Internal);
      }
      var f := body.value;
      if PhoneClash(users, id, f) {
        return Fail(400, PhoneInUse);
      }
      var n := PatchAccount(users[id], f, hash);
      if PhonesUnique(users) {
        StoreKeepsPhonesUnique(users, id, n);
      }
      users := users[id := n];
      r := Ok(200, AccountDetails(id, n.name, n.phone, n.email));
    }

    /** DELETE /junior-ustadhs/<id>: remove the account and answer its name. */
    method DeleteJuniorUstadh(caller: Option<int>, id: int) returns (r: Reply<string>)
      requires Valid()
      modifies this
      ensures Valid() && nextId == old(nextId)
      ensures TeacherRequired(caller, old(users)).Deny? ==>
        r == Fail(TeacherRequired(caller, old(users)).code, TeacherRequired(caller, old(users)).error)
      ensures TeacherRequired(caller, old(users)).Proceed? && !IsJuniorUstadh(old(users), id) ==> r == Fail(404, NotFound)
      ensures r.Fail? ==> users == old(users)
      ensures r.Ok? <==> TeacherRequired(caller, old(users)).Proceed? && IsJuniorUstadh(old(users), id)
      ensures r.Ok? ==> r == Ok(200, old(users)[id].name) && users == old(users) - {id}
      ensures old(PhonesUnique(users)) ==> PhonesUnique(users)
    {
      var g := TeacherRequired(caller, users);
      if g.Deny? {
        return Fail(g.code, g.error);
      }
      if !IsJuniorUstadh(users, id) {
        return Fail(404, NotFound);
      }
      var name := users[id].name;
      if PhonesUnique(users) {
        RemoveKeepsPhonesUnique(users, id);
      }
      users := users - {id};
      r := Ok(200, name);
    }
  }
}
