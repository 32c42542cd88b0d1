/** The rows the controllers read and write through the Prisma client, and the
    store itself as one object whose tables the handlers update in place. */
module Schema {
  import opened Common

  /** bcrypt reads at most this many bytes of a password. */
  const BcryptInputLimit: nat := 72

  /** The part of a password bcrypt reads: its first 72 characters (bytes,
      for a password in ASCII). */
  function BcryptInput(password: string): (p: string)
    ensures |p| <= BcryptInputLimit && p <= password
    ensures |password| <= BcryptInputLimit ==> p == password
  {
    if |password| <= BcryptInputLimit then password else password[..BcryptInputLimit]
  }

  /** A bcrypt digest. `bcrypt.compare(pw, d)` holds exactly when
      `d == Hash(pw)`; salting is not modelled, so passwords bcrypt reads the
      same give equal digests. */
  datatype Digest = Bcrypt(secret: string)

  function Hash(password: string): Digest {
    Bcrypt(BcryptInput(password))
  }

  /** Two passwords have the same digest exactly when they agree on the
      bytes bcrypt reads: characters after the 72nd do not matter. */
  lemma HashMatchesPrefix(a: string, b: string)
    ensures Hash(a) == Hash(b) <==> BcryptInput(a) == BcryptInput(b)
    ensures |a| >= BcryptInputLimit && |b| >= BcryptInputLimit && a[..BcryptInputLimit] == b[..BcryptInputLimit] ==> Hash(a) == Hash(b)
  {
  }

  /** Seventy-two 'a's followed by "1", and by "2": two different passwords
      with one digest. */
  lemma SeventyThirdCharacterIgnored()
    ensures var a, b := seq(72, _ => 'a') + "1", seq(72, _ => 'a') + "2";
      a != b && Hash(a) == Hash(b)
  {
    var a, b := seq(72, _ => 'a') + "1", seq(72, _ => 'a') + "2";
    assert a[72] != b[72];
    assert a[..72] == seq(72, _ => 'a') == b[..72];
  }

  /** A row of the `user` table; `verificationCode` is null once verified. */
  datatype User = User(
    id: nat,
    username: string,
    email: string,
    password: Digest,
    isVerified: bool,
    verificationCode: Option<string>,
    familyId: Option<nat>,
    role: Option<string>)

  /** A row of the `family` table; `familyCode` is the join token. */
  datatype Family = Family(id: nat, name: string, familyCode: string)

  /** A row of the `member` table: the balance holder the ledger works on. */
  datatype Member = Member(id: nat, userId: nat, familyId: nat, canAddIncome: bool, balance: int)

  /** A row of the `transaction` table. The database schema is not part of
      this model: the type column is assumed to be a free string that stores
      whatever the request sent, and amounts are unbounded integers. Only
      "INCOME" is treated specially by the handlers. */
  datatype TxRow = TxRow(
    familyId: nat,
    memberId: nat,
    amount: int,
    transactionType: string,
    description: string,
    category: string,
    transactionAt: int)

  /** A verification email handed to the mailer. */
  datatype Mail = Mail(to: string, code: string)

  /** The database schema is not part of this model: user ids are assumed
      to be autoincrement integers from 1 (no handler deletes a user). Email
      and username are unique columns. */
  ghost predicate UsersValid(us: seq<User>) {
    && (forall i :: 0 <= i < |us| ==> us[i].id == i + 1)
    && (forall i, j :: 0 <= i < j < |us| ==> us[i].email != us[j].email && us[i].username != us[j].username)
  }

  /** Family ids are assumed, like user ids, to be autoincrement integers
      from 1; name and familyCode are unique columns. */
  ghost predicate FamiliesValid(fs: seq<Family>) {
    && (forall i :: 0 <= i < |fs| ==> fs[i].id == i + 1)
    && (forall i, j :: 0 <= i < j < |fs| ==> fs[i].name != fs[j].name && fs[i].familyCode != fs[j].familyCode)
  }

  /** Member ids are the primary key and `userId` is unique (the ledger looks
      a member up by it). */
  ghost predicate MembersValid(ms: seq<Member>) {
    forall i, j :: 0 <= i < j < |ms| ==> ms[i].id != ms[j].id && ms[i].userId != ms[j].userId
  }

  function UserById(us: seq<User>, id: int): (r: Option<nat>)
    ensures r.Some? ==> r.value < |us| && us[r.value].id == id
    ensures r.None? <==> forall j :: 0 <= j < |us| ==> us[j].id != id
  {
    FindFirst(us, (u: User) => u.id == id)
  }

  function UserByEmail(us: seq<User>, email: string): (r: Option<nat>)
    ensures r.Some? ==> r.value < |us| && us[r.value].email == email
    ensures r.None? <==> forall j :: 0 <= j < |us| ==> us[j].email != email
  {
    FindFirst(us, (u: User) => u.email == email)
  }

  function UserByUsername(us: seq<User>, username: string): (r: Option<nat>)
    ensures r.Some? ==> r.value < |us| && us[r.value].username == username
    ensures r.None? <==> forall j :: 0 <= j < |us| ==> us[j].username != username
  {
    FindFirst(us, (u: User) => u.username == username)
  }

  /** The lookup login and change-password share: by email first, then by username. */
  function UserByIdentifier(us: seq<User>, identifier: string): (r: Option<nat>)
    ensures r.Some? ==> r.value < |us|
    ensures r.Some? ==> us[r.value].email == identifier || us[r.value].username == identifier
    ensures r.Some? && us[r.value].email != identifier ==> forall j :: 0 <= j < |us| ==> us[j].email != identifier
    ensures r.None? <==> forall j :: 0 <= j < |us| ==> us[j].email != identifier && us[j].username != identifier
  {
    match UserByEmail(us, identifier)
    case Some(i) => Some(i)
    case None => UserByUsername(us, identifier)
  }

  function FamilyByName(fs: seq<Family>, name: string): (r: Option<nat>)
    ensures r.Some? ==> r.value < |fs| && fs[r.value].name == name
    ensures r.None? <==> forall j :: 0 <= j < |fs| ==> fs[j].name != name
  {
    FindFirst(fs, (f: Family) => f.name == name)
  }

  function FamilyByCode(fs: seq<Family>, code: string): (r: Option<nat>)
    ensures r.Some? ==> r.value < |fs| && fs[r.value].familyCode == code
    ensures r.None? <==> forall j :: 0 <= j < |fs| ==> fs[j].familyCode != code
  {
    FindFirst(fs, (f: Family) => f.familyCode == code)
  }

  function MemberByUser(ms: seq<Member>, userId: int): (r: Option<nat>)
    ensures r.Some? ==> r.value < |ms| && ms[r.value].userId == userId
    ensures r.None? <==> forall j :: 0 <= j < |ms| ==> ms[j].userId != userId
  {
    FindFirst(ms, (m: Member) => m.userId == userId)
  }

  function MemberById(ms: seq<Member>, id: int): (r: Option<nat>)
    ensures r.Some? ==> r.value < |ms| && ms[r.value].id == id
    ensures r.None? <==> forall j :: 0 <= j < |ms| ==> ms[j].id != id
  {
    FindFirst(ms, (m: Member) => m.id == id)
  }

  /** The database behind `prisma`, plus the mailer's outbox. */
  class Database {
    var users: seq<User>
    var families: seq<Family>
    var members: seq<Member>
    var transactions: seq<TxRow>
    var outbox: seq<Mail>

    /** The unique and primary-key constraints the schema enforces. */
    ghost predicate Valid()
      reads this
    {
      UsersValid(users) && FamiliesValid(families) && MembersValid(members)
    }

    constructor (members: seq<Member>)
      requires MembersValid(members)
      ensures Valid()
      ensures this.members == members
      ensures users == [] && families == [] && transactions == [] && outbox == []
    {
      this.members := members;
      users, families, transactions, outbox := [], [], [], [];
    }
  }
}
