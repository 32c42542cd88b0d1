/** The handlers of controllers/family.controller.js: creating a family under
    a unique name and attaching the caller to it, and joining a family by its
    code. Both work on the caller's `user` row (`familyId`, `role`). */
module Families {
  import opened Common
  import opened Schema

  /** The role a family creator gets when the request names none. */
  const DefaultRole: string := "AYAH"

  /** `role || "AYAH"`: the requested role, or the default when it is empty. */
  function RoleOrDefault(role: string): (r: string)
    ensures r != ""
    ensures role != "" ==> r == role
    ensures role == "" ==> r == DefaultRole
  {
    if role == "" then DefaultRole else role
  }

  /** User row i linked to family `familyId`; every other field and row kept. */
  function Attach(us: seq<User>, i: nat, familyId: nat): (r: seq<User>)
    requires i < |us|
    ensures |r| == |us|
    ensures r[i] == us[i].(familyId := Some(familyId))
    ensures forall k :: 0 <= k < |us| && k != i ==> r[k] == us[k]
  {
    us[i := us[i].(familyId := Some(familyId))]
  }

  /** Linking a user to the family it is already linked to changes nothing. */
  lemma AttachIdempotent(us: seq<User>, i: nat, familyId: nat)
    requires i < |us|
    ensures Attach(Attach(us, i, familyId), i, familyId) == Attach(us, i, familyId)
  {
  }

  /** A new link replaces the old one: only the last family joined is kept. */
  lemma AttachOverwrites(us: seq<User>, i: nat, first: nat, second: nat)
    requires i < |us|
    ensures Attach(Attach(us, i, first), i, second) == Attach(us, i, second)
  {
  }

  /** Rewriting fields other than id, email and username keeps the user
      table's key constraints. */
  lemma RelinkKeepsKeys(us: seq<User>, i: nat, u: User)
    requires UsersValid(us) && i < |us|
    requires u.id == us[i].id && u.email == us[i].email && u.username == us[i].username
    ensures UsersValid(us[i := u])
  {
    var r := us[i := u];
    forall a, b | 0 <= a < b < |r|
      ensures r[a].email != r[b].email && r[a].username != r[b].username
    {
      assert r[a].email == us[a].email && r[a].username == us[a].username;
      assert r[b].email == us[b].email && r[b].username == us[b].username;
    }
  }

  /** A family appended under a name and a code that no family has yet, with
      the next autoincrement id, keeps names and codes unique. */
  lemma {:induction false} NewFamilyKeepsKeys(fs: seq<Family>, name: string, code: string)
    requires FamiliesValid(fs)
    requires forall j :: 0 <= j < |fs| ==> fs[j].name != name && fs[j].familyCode != code
    ensures FamiliesValid(fs + [Family(|fs| + 1, name, code)])
  {
    var r := fs + [Family(|fs| + 1, name, code)];
    forall a, b | 0 <= a < b < |r|
      ensures r[a].name != r[b].name && r[a].familyCode != r[b].familyCode
    {
      assert r[a] == fs[a];
      if b < |fs| {
        assert r[b] == fs[b];
      }
    }
  }

  /** `createFamily`. The family row is inserted before the user row is
      updated, and the two writes are not one unit: when the caller's user row
      is missing the update fails and the new family stays behind. */
  method CreateFamily(db: Database, userId: int, name: string, role: string, familyCode: string)
    returns (r: Outcome<Family>)
    requires db.Valid()
    requires FamilyByCode(db.families, familyCode).None?  // the code the store generates is unused
    modifies db
    ensures db.Valid()
    ensures db.members == old(db.members) && db.transactions == old(db.transactions) && db.outbox == old(db.outbox)
    ensures r == Err(BadRequest) <==> name == "" || FamilyByName(old(db.families), name).Some?
    ensures r == Err(BadRequest) ==> db.families == old(db.families) && db.users == old(db.users)
    ensures r != Err(BadRequest) ==> db.families == old(db.families) + [Family(|old(db.families)| + 1, name, familyCode)]
    ensures r == Err(ServerError) <==>
      && name != "" && FamilyByName(old(db.families), name).None?
      && UserById(old(db.users), userId).None?
    ensures r == Err(ServerError) ==> db.users == old(db.users)
    ensures r.Ok? || r == Err(BadRequest) || r == Err(ServerError)
    ensures r.Ok? ==> UserById(old(db.users), userId).Some?
    ensures r.Ok? ==>
      var i := UserById(old(db.users), userId).value;
      && r.value == Family(|old(db.families)| + 1, name, familyCode)
      && db.users == old(db.users)[i := old(db.users)[i].(familyId := Some(r.value.id), role := Some(RoleOrDefault(role)))]
  {
    if name == "" {
      return Err(BadRequest);
    }
    if FamilyByName(db.families, name).Some? {
      return Err(BadRequest);
    }
    var family := Family(|db.families| + 1, name, familyCode);
    NewFamilyKeepsKeys(db.families, name, familyCode);
    db.families := db.families + [family];
    var found := UserById(db.users, userId);
    if found.None? {
      return Err(ServerError);
    }
    var i := found.value;
    var updated := db.users[i].(familyId := Some(family.id), role := Some(RoleOrDefault(role)));
    RelinkKeepsKeys(db.users, i, updated);
    db.users := db.users[i := updated];
    r := Ok(family);
  }

  /** `joinFamily`: the caller's `familyId` is overwritten with the family the
      code names; the role and every other row stay as they were. */
  method JoinFamily(db: Database, userId: int, familyCode: string) returns (r: Outcome<User>)
    requires db.Valid()
    modifies db
    ensures db.Valid()
    ensures db.families == old(db.families) && db.members == old(db.members)
    ensures db.transactions == old(db.transactions) && db.outbox == old(db.outbox)
    ensures r == Err(BadRequest) <==> familyCode == ""
    ensures r == Err(NotFound) <==> familyCode != "" && FamilyByCode(old(db.families), familyCode).None?
    ensures r == Err(ServerError) <==>
      && familyCode != "" && FamilyByCode(old(db.families), familyCode).Some?
      && UserById(old(db.users), userId).None?
    ensures r.Ok? || r == Err(BadRequest) || r == Err(NotFound) || r == Err(ServerError)
    ensures r.Err? ==> db.users == old(db.users)
    ensures r.Ok? ==> FamilyByCode(old(db.families), familyCode).Some? && UserById(old(db.users), userId).Some?
    ensures r.Ok? ==>
      var f := old(db.families)[FamilyByCode(old(db.families), familyCode).value];
      var i := UserById(old(db.users), userId).value;
      && db.users == Attach(old(db.users), i, f.id)
      && r.value == db.users[i]
  {
    if familyCode == "" {
      return Err(BadRequest);
    }
    var family := FamilyByCode(db.families, familyCode);
    if family.None? {
      return Err(NotFound);
    }
    var found := UserById(db.users, userId);
    if found.None? {
      return Err(ServerError);
    }
    var i := found.value;
    var f := db.families[family.value];
    RelinkKeepsKeys(db.users, i, db.users[i].(familyId := Some(f.id)));
    db.users := Attach(db.users, i, f.id);
    r := Ok(db.users[i]);
  }

  /** Joining the same family a second time answers the same user row and
      leaves the state of the first join: there is no membership check. */
  method JoinTwice(db: Database, userId: int, familyCode: string) returns (first: Outcome<User>, second: Outcome<User>)
    requires db.Valid()
    modifies db
    ensures db.Valid()
    ensures db.families == old(db.families) && db.members == old(db.members)
    ensures db.transactions == old(db.transactions) && db.outbox == old(db.outbox)
    ensures first.Ok? ==> second == first
    ensures first.Ok? ==> FamilyByCode(old(db.families), familyCode).Some? && UserById(old(db.users), userId).Some?
    ensures first.Ok? ==>
      var f := old(db.families)[FamilyByCode(old(db.families), familyCode).value];
      db.users == Attach(old(db.users), UserById(old(db.users), userId).value, f.id)
    ensures first.Err? ==> second == first && db.users == old(db.users)
  {
    first := JoinFamily(db, userId, familyCode);
    second := JoinFamily(db, userId, familyCode);
    if first.Ok? {
      var i := UserById(old(db.users), userId).value;
      var f := old(db.families)[FamilyByCode(old(db.families), familyCode).value];
      AttachIdempotent(old(db.users), i, f.id);
    }
  }
}
