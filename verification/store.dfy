/** The persistent records the auth flows read and write, and the table operations the
    database performs for them: find-first, delete-by-id, create with a fresh id. */
module Store {
  import opened Common
  import opened Roles

  /** One row of a token table (verification tokens, password-reset tokens or two-factor
      codes): `value` is the token or the OTP, `expires` a time in milliseconds. */
  datatype TokenRow = TokenRow(id: nat, email: string, value: string, expires: int)

  type Table = seq<TokenRow>

  /** A user account. A missing `password` marks an account created through an OAuth provider. */
  datatype User = User(
    id: string,
    name: Option<string>,
    email: string,
    password: Option<string>,
    role: UserRole,
    emailVerified: Option<int>,
    isTwoFactorEnabled: bool,
    image: Option<string>)

  /** The marker that a user passed the two-factor check. */
  datatype Confirmation = Confirmation(id: nat, userId: string)

  /** The whole database: users keyed by their (unique) email, three token tables, and
      the two-factor confirmations. */
  datatype Db = Db(
    users: map<string, User>,
    verificationTokens: Table,
    resetTokens: Table,
    otps: Table,
    confirmations: seq<Confirmation>)

  /** Every user is stored under its own email. */
  predicate UsersKeyed(users: map<string, User>) {
    forall e :: e in users ==> users[e].email == e
  }

  // ---------------------------------------------------------------- token tables

  /** Row ids and row emails are both unique (the schema's `@id` and `@unique` columns). */
  predicate UniqueRows(t: Table) {
    forall i, j :: 0 <= i < j < |t| ==> t[i].id != t[j].id && t[i].email != t[j].email
  }

  /** The column a lookup matches on. */
  datatype Column = EmailColumn | ValueColumn

  function Cell(r: TokenRow, c: Column): string {
    match c
    case EmailColumn => r.email
    case ValueColumn => r.value
  }

  /** Position of the first row whose column `c` holds `s`, or `|t|` when there is none. */
  function IndexOf(t: Table, c: Column, s: string): (k: nat)
    ensures k <= |t|
    ensures k < |t| ==> Cell(t[k], c) == s
    ensures forall j :: 0 <= j < k ==> Cell(t[j], c) != s
  {
    if |t| == 0 then 0
    else if Cell(t[0], c) == s then 0
    else 1 + IndexOf(t[1..], c, s)
  }

  /** `findFirst({ where: { email } })` */
  function FindByEmail(t: Table, email: string): (r: Option<TokenRow>)
    ensures r.Some? ==> r.value in t && r.value.email == email
    ensures r.None? <==> forall i :: 0 <= i < |t| ==> t[i].email != email
  {
    var k := IndexOf(t, EmailColumn, email);
    if k < |t| then Some(t[k]) else None
  }

  /** `findUnique({ where: { token } })`: the row holding `value`. */
  function FindByValue(t: Table, value: string): (r: Option<TokenRow>)
    ensures r.Some? ==> r.value in t && r.value.value == value
    ensures r.None? <==> forall i :: 0 <= i < |t| ==> t[i].value != value
  {
    var k := IndexOf(t, ValueColumn, value);
    if k < |t| then Some(t[k]) else None
  }

  /** `delete({ where: { id } })`: every row with that id goes, the others keep their order. */
  function DeleteById(t: Table, id: nat): (r: Table)
    ensures |r| <= |t|
    ensures forall x :: x in r <==> x in t && x.id != id
  {
    if |t| == 0 then []
    else if t[0].id == id then DeleteById(t[1..], id)
    else [t[0]] + DeleteById(t[1..], id)
  }

  /** An id larger than every id in the table, as the database's id generator guarantees. */
  function NextId(t: Table): (n: nat)
    ensures forall x :: x in t ==> x.id < n
  {
    if |t| == 0 then 1
    else
      var rest := NextId(t[1..]);
      assert forall x :: x in t ==> x == t[0] || x in t[1..];
      if t[0].id < rest then rest else t[0].id + 1
  }

  /** Number of rows for `email`. */
  function EmailCount(t: Table, email: string): nat {
    if |t| == 0 then 0
    else (if t[0].email == email then 1 else 0) + EmailCount(t[1..], email)
  }

  /** The table read as the map `email -> row` that a find-by-email sees: the first row
      for an email wins. */
  function View(t: Table): map<string, TokenRow> {
    if |t| == 0 then map[] else View(t[1..])[t[0].email := t[0]]
  }

  /** The map view and find-by-email agree on every email. */
  lemma {:induction false} ViewIsFind(t: Table, e: string)
    ensures e in View(t) <==> FindByEmail(t, e).Some?
    ensures e in View(t) ==> View(t)[e] == FindByEmail(t, e).value
  {
    if |t| > 0 {
      ViewIsFind(t[1..], e);
      if t[0].email != e {
        assert IndexOf(t, EmailColumn, e) == 1 + IndexOf(t[1..], EmailColumn, e);
      }
    }
  }

  /** In a table with unique rows, each row is what the view shows for its email, and
      the view shows nothing else. */
  lemma {:induction false} ViewOfUnique(t: Table)
    requires UniqueRows(t)
    ensures forall x :: x in t ==> x.email in View(t) && View(t)[x.email] == x
    ensures forall e :: e in View(t) ==> View(t)[e] in t && View(t)[e].email == e
  {
    if |t| > 0 {
      ViewOfUnique(t[1..]);
      forall x | x in t
        ensures x.email in View(t) && View(t)[x.email] == x
      {
        if x != t[0] {
          assert x in t[1..];
          var j :| 0 <= j < |t[1..]| && t[1..][j] == x;
          assert t[j + 1] == x;
        }
      }
    }
  }

  /** Rows of a unique table that share an id or an email are the same row. */
  lemma UniqueMembers(t: Table, x: TokenRow, y: TokenRow)
    requires UniqueRows(t) && x in t && y in t
    requires x.id == y.id || x.email == y.email
    ensures x == y
  {
    var i :| 0 <= i < |t| && t[i] == x;
    var j :| 0 <= j < |t| && t[j] == y;
  }

  /** Removing the only row holding `value` leaves none that holds it. */
  lemma DeletedValueGone(t: Table, row: TokenRow, value: string)
    requires row in t
    requires forall x :: x in t && x.value == value ==> x == row
    ensures FindByValue(DeleteById(t, row.id), value).None?
  {
    var rest := DeleteById(t, row.id);
    forall i | 0 <= i < |rest| ensures rest[i].value != value {
      assert rest[i] in rest;
    }
  }

  /** Deleting rows keeps a unique table unique. */
  lemma {:induction false} DeleteKeepsUnique(t: Table, id: nat)
    requires UniqueRows(t)
    ensures UniqueRows(DeleteById(t, id))
  {
    if |t| > 0 {
      var rest := DeleteById(t[1..], id);
      DeleteKeepsUnique(t[1..], id);
      if t[0].id != id {
        var r := [t[0]] + rest;
        forall j | 0 < j < |r| ensures r[0].id != r[j].id && r[0].email != r[j].email {
          assert r[j] in rest;
          var m :| 0 <= m < |t[1..]| && t[1..][m] == r[j];
          assert t[m + 1] == r[j];
        }
      }
    }
  }

  /** A table without rows for `email` counts none. */
  lemma {:induction false} CountAbsent(t: Table, email: string)
    requires forall x :: x in t ==> x.email != email
    ensures EmailCount(t, email) == 0
  {
    if |t| > 0 {
      assert t[0] in t;
      assert forall x :: x in t[1..] ==> x in t;
      CountAbsent(t[1..], email);
    }
  }

  lemma {:induction false} CountAppend(t: Table, row: TokenRow, email: string)
    ensures EmailCount(t + [row], email) == EmailCount(t, email) + (if row.email == email then 1 else 0)
  {
    if |t| == 0 {
      assert t + [row] == [row];
    } else {
      assert (t + [row])[1..] == t[1..] + [row];
      CountAppend(t[1..], row, email);
    }
  }

  /** Appending a row whose email is new gives the view one more entry. */
  lemma {:induction false} ViewAppendNew(t: Table, row: TokenRow)
    requires forall x :: x in t ==> x.email != row.email
    ensures View(t + [row]) == View(t)[row.email := row]
  {
    if |t| == 0 {
      assert t + [row] == [row];
    } else {
      assert (t + [row])[1..] == t[1..] + [row];
      assert forall x :: x in t[1..] ==> x in t;
      ViewAppendNew(t[1..], row);
      assert t[0] in t;
      assert t[0].email != row.email;
    }
  }

  // ---------------------------------------------------------------- confirmations

  /** Confirmation ids are unique and each user has at most one confirmation. */
  predicate UniqueConfirmations(cs: seq<Confirmation>) {
    forall i, j :: 0 <= i < j < |cs| ==> cs[i].id != cs[j].id && cs[i].userId != cs[j].userId
  }

  /** The first confirmation of `userId`. */
  function FindConfirmation(cs: seq<Confirmation>, userId: string): (r: Option<Confirmation>)
    ensures r.Some? ==> r.value in cs && r.value.userId == userId
    ensures r.None? ==> forall c :: c in cs ==> c.userId != userId
  {
    if |cs| == 0 then None
    else if cs[0].userId == userId then Some(cs[0])
    else FindConfirmation(cs[1..], userId)
  }

  /** `twoFactorConfirmation.delete({ where: { id } })` */
  function DeleteConfirmation(cs: seq<Confirmation>, id: nat): (r: seq<Confirmation>)
    ensures forall c :: c in r <==> c in cs && c.id != id
  {
    if |cs| == 0 then []
    else if cs[0].id == id then DeleteConfirmation(cs[1..], id)
    else [cs[0]] + DeleteConfirmation(cs[1..], id)
  }

  /** An id larger than every confirmation id. */
  function NextConfirmationId(cs: seq<Confirmation>): (n: nat)
    ensures forall c :: c in cs ==> c.id < n
  {
    if |cs| == 0 then 1
    else
      var rest := NextConfirmationId(cs[1..]);
      assert forall c :: c in cs ==> c == cs[0] || c in cs[1..];
      if cs[0].id < rest then rest else cs[0].id + 1
  }

  /** Number of confirmations held by `userId`. */
  function ConfirmationCount(cs: seq<Confirmation>, userId: string): nat {
    if |cs| == 0 then 0
    else (if cs[0].userId == userId then 1 else 0) + ConfirmationCount(cs[1..], userId)
  }
}
