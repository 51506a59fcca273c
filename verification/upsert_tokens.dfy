/** Create-or-update of the three token kinds, keyed by email. The random token (a UUID) and
    the random OTP draw are parameters, and so is the clock reading `now`. */
module UpsertTokens {
  import opened Common
  import opened Text
  import opened Helpers
  import opened Store

  /** Every token and OTP lives five minutes. */
  const TokenLifetimeMinutes: int := 5

  /** A draw of `crypto.randomInt(100_000, 1_000_000)`: the upper bound is exclusive. */
  type OtpDraw = n: nat | 100000 <= n < 1000000 witness 100000

  /** The messages each upsert rethrows when the database call fails with a non-`Error`. */
  const ResetTokenFailure: string := "Internal Server Error: Unable to fetch password reset token."
  const VerificationTokenFailure: string := "Internal Server Error: Unable to fetch verification token."
  const OtpFailure: string := "Internal Server Error: Unable to fetch two-factor authentication OTP."

  /** What an upsert rethrows when the database throws `t`: a fresh `Error` carrying the
      original message, or the kind's default message. */
  function UpsertFailure(t: Thrown, defaultMessage: string): (e: Thrown)
    ensures e.PlainError?
    ensures IsErrorInstance(t) ==> e.message == t.message
    ensures !IsErrorInstance(t) ==> e.message == defaultMessage
  {
    PlainError(ExtractErrorMessage(t, defaultMessage))
  }

  /** The table after an upsert, and the row the database returns. */
  datatype Issued = Issued(table: Table, row: TokenRow)

  /** The row-level upsert: the first row for `email` gets the new value and expiry and keeps
      its id and place; when there is none, a new row with id `id` is appended. */
  function UpsertRows(t: Table, email: string, value: string, expires: int, id: nat): Table {
    if |t| == 0 then [TokenRow(id, email, value, expires)]
    else if t[0].email == email then [t[0].(value := value, expires := expires)] + t[1..]
    else [t[0]] + UpsertRows(t[1..], email, value, expires, id)
  }

  /** Row by row: every existing row keeps its id, email and place; rows for other emails are
      untouched; a row is appended exactly when none was there for `email`, and it is the new one. */
  lemma {:induction false} UpsertRowsShape(t: Table, email: string, value: string, expires: int, id: nat)
    ensures var r := UpsertRows(t, email, value, expires, id);
      (|r| == |t| || |r| == |t| + 1) &&
      (forall i :: 0 <= i < |t| ==> r[i].id == t[i].id && r[i].email == t[i].email) &&
      (forall i :: 0 <= i < |t| && t[i].email != email ==> r[i] == t[i]) &&
      (|r| == |t| + 1 <==> forall i :: 0 <= i < |t| ==> t[i].email != email) &&
      (|r| == |t| + 1 ==> r[|t|] == TokenRow(id, email, value, expires))
  {
    if |t| > 0 && t[0].email != email {
      UpsertRowsShape(t[1..], email, value, expires, id);
    }
  }

  /** The row an upsert leaves for `email`: the old row updated, or a new one. */
  function UpsertedRow(t: Table, email: string, value: string, expires: int, id: nat): TokenRow {
    match FindByEmail(t, email)
    case Some(prior) => prior.(value := value, expires := expires)
    case None => TokenRow(id, email, value, expires)
  }

  /** Find-by-email past a first row for another email looks only at the rest. */
  lemma FindSkipsHead(t: Table, email: string)
    requires |t| > 0 && t[0].email != email
    ensures FindByEmail(t, email) == FindByEmail(t[1..], email)
  {
    assert IndexOf(t, EmailColumn, email) == 1 + IndexOf(t[1..], EmailColumn, email);
  }

  /** As a map from email to row, the upsert is a map update at `email`: every other email's
      row is untouched. */
  lemma {:induction false} UpsertRowsView(t: Table, email: string, value: string, expires: int, id: nat)
    ensures View(UpsertRows(t, email, value, expires, id)) == View(t)[email := UpsertedRow(t, email, value, expires, id)]
  {
    var r := UpsertRows(t, email, value, expires, id);
    var row := UpsertedRow(t, email, value, expires, id);
    if |t| > 0 {
      var m := View(t[1..]);
      if t[0].email == email {
        assert r == [row] + t[1..];
        assert r[1..] == t[1..];
        assert View(r) == m[email := row];
        assert View(t)[email := row] == m[email := t[0]][email := row];
      } else {
        FindSkipsHead(t, email);
        var r1 := UpsertRows(t[1..], email, value, expires, id);
        assert row == UpsertedRow(t[1..], email, value, expires, id);
        UpsertRowsView(t[1..], email, value, expires, id);
        assert r == [t[0]] + r1;
        assert r[1..] == r1;
        assert View(r) == m[email := row][t[0].email := t[0]];
        assert View(t)[email := row] == m[t[0].email := t[0]][email := row];
      }
    }
  }

  /** A unique table stays unique when the fresh id is new. */
  lemma UpsertRowsUnique(t: Table, email: string, value: string, expires: int, id: nat)
    requires UniqueRows(t)
    requires forall x :: x in t ==> x.id != id
    ensures UniqueRows(UpsertRows(t, email, value, expires, id))
  {
    var r := UpsertRows(t, email, value, expires, id);
    UpsertRowsShape(t, email, value, expires, id);
    forall i, j | 0 <= i < j < |r| ensures r[i].id != r[j].id && r[i].email != r[j].email {
      if j == |t| {
        assert t[i] in t;
      }
    }
  }

  /** In a unique table, the upsert leaves exactly one row for `email`. */
  lemma {:induction false} UpsertRowsCount(t: Table, email: string, value: string, expires: int, id: nat)
    requires UniqueRows(t)
    ensures EmailCount(UpsertRows(t, email, value, expires, id), email) == 1
  {
    var r := UpsertRows(t, email, value, expires, id);
    if |t| == 0 {
    } else if t[0].email == email {
      assert r[1..] == t[1..];
      forall x | x in t[1..] ensures x.email != email {
        var j :| 0 <= j < |t[1..]| && t[1..][j] == x;
        assert t[j + 1] == x;
      }
      CountAbsent(t[1..], email);
    } else {
      assert r[1..] == UpsertRows(t[1..], email, value, expires, id);
      UpsertRowsCount(t[1..], email, value, expires, id);
    }
  }

  /** `prisma.<kind>.upsert({ where: { email }, create, update })` with a value that expires
      five minutes after `now`. */
  function Upsert(t: Table, email: string, value: string, now: int): (u: Issued)
    ensures u.row.email == email && u.row.value == value
    ensures u.row.expires == ExpiryInMinutes(now, TokenLifetimeMinutes)
    ensures FindByEmail(t, email).Some? ==> u.row.id == FindByEmail(t, email).value.id
    ensures FindByEmail(t, email).None? ==> forall x :: x in t ==> x.id != u.row.id
  {
    var expires := ExpiryInMinutes(now, TokenLifetimeMinutes);
    Issued(UpsertRows(t, email, value, expires, NextId(t)), UpsertedRow(t, email, value, expires, NextId(t)))
  }

  /** After an upsert for `email`, the table holds exactly one row for it, carrying the new value,
      that row is what a lookup by email returns, and every other email keeps its row. */
  lemma UpsertResult(t: Table, email: string, value: string, now: int)
    requires UniqueRows(t)
    ensures UniqueRows(Upsert(t, email, value, now).table)
    ensures View(Upsert(t, email, value, now).table) == View(t)[email := Upsert(t, email, value, now).row]
    ensures FindByEmail(Upsert(t, email, value, now).table, email) == Some(Upsert(t, email, value, now).row)
    ensures EmailCount(Upsert(t, email, value, now).table, email) == 1
  {
    var expires := ExpiryInMinutes(now, TokenLifetimeMinutes);
    var u := Upsert(t, email, value, now);
    UpsertRowsView(t, email, value, expires, NextId(t));
    UpsertRowsUnique(t, email, value, expires, NextId(t));
    UpsertRowsCount(t, email, value, expires, NextId(t));
    ViewIsFind(u.table, email);
  }

  /** A value no row held before is, after the upsert, held by the upserted row's email only. */
  lemma UpsertedValueHolder(t: Table, email: string, value: string, expires: int, id: nat)
    requires forall x :: x in t ==> x.value != value
    ensures forall x :: x in UpsertRows(t, email, value, expires, id) && x.value == value ==> x.email == email
  {
    var r := UpsertRows(t, email, value, expires, id);
    UpsertRowsShape(t, email, value, expires, id);
    forall x | x in r && x.value == value ensures x.email == email {
      var i :| 0 <= i < |r| && r[i] == x;
    }
  }

  /** A fresh value given by an upsert is found by value at the upserted row, and no other row
      holds it. */
  lemma UpsertFreshValue(t: Table, email: string, value: string, now: int)
    requires UniqueRows(t)
    requires forall x :: x in t ==> x.value != value
    ensures FindByValue(Upsert(t, email, value, now).table, value) == Some(Upsert(t, email, value, now).row)
    ensures forall x :: x in Upsert(t, email, value, now).table && x.value == value ==> x == Upsert(t, email, value, now).row
  {
    var u := Upsert(t, email, value, now);
    UpsertedValueHolder(t, email, value, ExpiryInMinutes(now, TokenLifetimeMinutes), NextId(t));
    UpsertResult(t, email, value, now);
    assert u.row in u.table;
    forall x | x in u.table && x.value == value ensures x == u.row {
      UniqueMembers(u.table, x, u.row);
    }
    var j :| 0 <= j < |u.table| && u.table[j] == u.row;
    assert FindByValue(u.table, value).Some?;
  }

  /** Upserting twice for one email leaves one row for it, with the later value and expiry. */
  lemma UpsertTwice(t: Table, email: string, v1: string, now1: int, v2: string, now2: int)
    requires UniqueRows(t)
    ensures var u2 := Upsert(Upsert(t, email, v1, now1).table, email, v2, now2);
      EmailCount(u2.table, email) == 1 &&
      FindByEmail(u2.table, email) == Some(u2.row) &&
      u2.row.value == v2 && u2.row.expires == ExpiryInMinutes(now2, TokenLifetimeMinutes) &&
      View(u2.table) == View(t)[email := u2.row]
  {
    var u1 := Upsert(t, email, v1, now1);
    UpsertResult(t, email, v1, now1);
    UpsertResult(u1.table, email, v2, now2);
  }

  /** The database after `upsertPasswordResetToken(email)`; only the reset tokens change. */
  function UpsertPasswordResetToken(db: Db, email: string, uuid: string, now: int): (r: (Db, TokenRow))
    ensures r.0 == db.(resetTokens := r.0.resetTokens)
    ensures r.1.email == email && r.1.value == uuid
  {
    var u := Upsert(db.resetTokens, email, uuid, now);
    (db.(resetTokens := u.table), u.row)
  }

  /** The database after `upsertVerificationToken(email)`; only the verification tokens change. */
  function UpsertVerificationToken(db: Db, email: string, uuid: string, now: int): (r: (Db, TokenRow))
    ensures r.0 == db.(verificationTokens := r.0.verificationTokens)
    ensures r.1.email == email && r.1.value == uuid
  {
    var u := Upsert(db.verificationTokens, email, uuid, now);
    (db.(verificationTokens := u.table), u.row)
  }

  /** The six-digit string `randomInt(100_000, 1_000_000).toString()`. */
  function OtpString(draw: OtpDraw): (s: string)
    ensures |s| == 6
    ensures forall i :: 0 <= i < |s| ==> IsDigit(s[i])
    ensures DecimalValue(s) == draw
  {
    assert Pow10(5) == 100000 && Pow10(6) == 1000000;
    DecimalLength(draw, 6);
    DecimalRoundTrip(draw);
    Decimal(draw)
  }

  /** The database after `upsertTwoFactorOTP(email)`; only the OTP table changes. */
  function UpsertTwoFactorOtp(db: Db, email: string, draw: OtpDraw, now: int): (r: (Db, TokenRow))
    ensures r.0 == db.(otps := r.0.otps)
    ensures r.1.email == email && r.1.value == OtpString(draw) && |r.1.value| == 6
  {
    var u := Upsert(db.otps, email, OtpString(draw), now);
    (db.(otps := u.table), u.row)
  }
}
