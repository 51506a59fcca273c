/** The delete-then-create token generators: the row for an email, if any, is deleted and a
    new row with a fresh id is created. */
module TokenGenerators {
  import opened Common
  import opened Helpers
  import opened Store
  import opened UpsertTokens

  /** `t` without its row for `email` (the `getXByEmail` lookup followed by `delete`). */
  function ClearEmail(t: Table, email: string): Table {
    match FindByEmail(t, email)
    case Some(prior) => DeleteById(t, prior.id)
    case None => t
  }

  /** In a unique table, clearing `email` removes exactly the rows for `email`. */
  lemma ClearEmailRows(t: Table, email: string)
    requires UniqueRows(t)
    ensures UniqueRows(ClearEmail(t, email))
    ensures forall x :: x in ClearEmail(t, email) <==> x in t && x.email != email
  {
    match FindByEmail(t, email)
    case Some(prior) =>
      DeleteKeepsUnique(t, prior.id);
      forall x | x in t && (x.id == prior.id || x.email == email) ensures x == prior {
        UniqueMembers(t, x, prior);
      }
    case None =>
      forall x | x in t ensures x.email != email {
        var i :| 0 <= i < |t| && t[i] == x;
      }
  }

  /** Delete the row for `email`, then create one holding `value` that expires five minutes
      after `now`, under an id the table has never used. */
  function Generate(t: Table, email: string, value: string, now: int): (u: Issued)
    ensures u.row.email == email && u.row.value == value
    ensures u.row.expires == ExpiryInMinutes(now, TokenLifetimeMinutes)
    ensures forall x :: x in t ==> x.id != u.row.id
  {
    var row := TokenRow(NextId(t), email, value, ExpiryInMinutes(now, TokenLifetimeMinutes));
    Issued(ClearEmail(t, email) + [row], row)
  }

  /** Given one row per email beforehand, a generator leaves exactly one row for `email`,
      holding the new value, and leaves every other email's row alone. */
  lemma GenerateResult(t: Table, email: string, value: string, now: int)
    requires UniqueRows(t)
    ensures UniqueRows(Generate(t, email, value, now).table)
    ensures View(Generate(t, email, value, now).table) == View(t)[email := Generate(t, email, value, now).row]
    ensures FindByEmail(Generate(t, email, value, now).table, email) == Some(Generate(t, email, value, now).row)
    ensures EmailCount(Generate(t, email, value, now).table, email) == 1
  {
    var u := Generate(t, email, value, now);
    var c := ClearEmail(t, email);
    ClearEmailRows(t, email);
    assert u.table == c + [u.row];
    // uniqueness of the new table
    forall i, j | 0 <= i < j < |u.table|
      ensures u.table[i].id != u.table[j].id && u.table[i].email != u.table[j].email
    {
      if j == |c| {
        assert c[i] in c;
      }
    }
    // the view
    ViewAppendNew(c, u.row);
    ViewOfUnique(c);
    ViewOfUnique(t);
    forall k | k != email
      ensures (k in View(c) <==> k in View(t)) && (k in View(c) ==> View(c)[k] == View(t)[k])
    {
      if k in View(c) {
        UniqueMembers(t, View(c)[k], View(t)[View(c)[k].email]);
      }
      if k in View(t) {
        assert View(t)[k] in c;
      }
    }
    assert View(c)[email := u.row] == View(t)[email := u.row];
    ViewIsFind(u.table, email);
    CountAppend(c, u.row, email);
    CountAbsent(c, email);
  }

  /** The generators and the upserts agree on every email's row except for the id of the row for
      `email`: the upsert keeps the old id, the generator always takes a fresh one. */
  lemma GenerateMatchesUpsert(t: Table, email: string, value: string, now: int)
    requires UniqueRows(t)
    ensures var g := Generate(t, email, value, now); var u := Upsert(t, email, value, now);
      g.row.email == u.row.email && g.row.value == u.row.value && g.row.expires == u.row.expires &&
      View(g.table) == View(u.table)[email := g.row] &&
      (FindByEmail(t, email).Some? ==> g.row.id != u.row.id)
  {
    var g := Generate(t, email, value, now);
    var u := Upsert(t, email, value, now);
    var m := View(t);
    GenerateResult(t, email, value, now);
    UpsertResult(t, email, value, now);
    assert View(g.table) == m[email := g.row];
    assert View(u.table) == m[email := u.row];
    UpdateTwice(m, email, u.row, g.row);
  }

  /** A second update of one key overrides the first. */
  lemma UpdateTwice<K, V>(m: map<K, V>, k: K, a: V, b: V)
    ensures m[k := a][k := b] == m[k := b]
  {
  }

  /** `generateVerificationToken(email)` */
  function GenerateVerificationToken(db: Db, email: string, uuid: string, now: int): (r: (Db, TokenRow))
    ensures r.0 == db.(verificationTokens := r.0.verificationTokens)
    ensures r.1.email == email && r.1.value == uuid
  {
    var u := Generate(db.verificationTokens, email, uuid, now);
    (db.(verificationTokens := u.table), u.row)
  }

  /** `generateTwoFactorOTP(email)` */
  function GenerateTwoFactorOtp(db: Db, email: string, draw: OtpDraw, now: int): (r: (Db, TokenRow))
    ensures r.0 == db.(otps := r.0.otps)
    ensures r.1.email == email && r.1.value == OtpString(draw) && |r.1.value| == 6
  {
    var u := Generate(db.otps, email, OtpString(draw), now);
    (db.(otps := u.table), u.row)
  }

  /** `generatePasswordResetToken(email)` */
  function GeneratePasswordResetToken(db: Db, email: string, uuid: string, now: int): (r: (Db, TokenRow))
    ensures r.0 == db.(resetTokens := r.0.resetTokens)
    ensures r.1.email == email && r.1.value == uuid
  {
    var u := Generate(db.resetTokens, email, uuid, now);
    (db.(resetTokens := u.table), u.row)
  }
}
