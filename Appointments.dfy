/**
 * The appointment repository: one ordered list of appointments, read by any
 * authenticated user and changed only by an admin. Duplicate ids are allowed;
 * delete removes every entry with the id, update changes the first one only.
 */
module Appointments {
  import opened Wrappers
  import opened Auth

  /** A point in time; the model only stores, copies and compares it. */
  type Date = int

  datatype Appointment = Appointment(
    id: int,
    patientName: string,
    doctorName: string,
    date: Date,
    status: string)

  const AppointmentDeleted := "Appointment deleted"
  const AppointmentNotFound := HttpError(404, "Appointment not found")

  // ------------------------------------------------ the list, as a value

  /** The entries whose id differs from `id`, in their original order. */
  function Without(db: seq<Appointment>, id: int): (r: seq<Appointment>)
    ensures |r| <= |db|
    ensures forall k :: 0 <= k < |r| ==> r[k].id != id
    ensures forall a :: a in r <==> a in db && a.id != id
  {
    if db == [] then []
    else (if db[0].id != id then [db[0]] else []) + Without(db[1..], id)
  }

  /** The index of the first entry with id `id`, if there is one. */
  function FirstMatch(db: seq<Appointment>, id: int): (r: Option<nat>)
    ensures r.Some? ==> r.value < |db| && db[r.value].id == id
                        && forall k :: 0 <= k < r.value ==> db[k].id != id
    ensures r.None? <==> forall k :: 0 <= k < |db| ==> db[k].id != id
  {
    if db == [] then None
    else if db[0].id == id then Some(0)
    else match FirstMatch(db[1..], id)
      case None => None
      case Some(i) => Some(i + 1)
  }

  /**
   * The entry an update leaves: the four fields the body supplies replace
   * the stored ones; the stored id stays.
   */
  function ApplyPatch(existing: Appointment, body: Appointment): (r: Appointment)
    ensures r == body.(id := existing.id)
  {
    existing.(patientName := body.patientName, doctorName := body.doctorName,
              date := body.date, status := body.status)
  }

  /** The list after an update of id `id` with `body`: only the first match changes. */
  function Updated(db: seq<Appointment>, id: int, body: Appointment): (r: seq<Appointment>)
    ensures |r| == |db|
    ensures forall k :: 0 <= k < |db| ==> r[k].id == db[k].id
    ensures FirstMatch(db, id).None? ==> r == db
    ensures FirstMatch(db, id).Some? ==>
              var i := FirstMatch(db, id).value;
              r[i] == body.(id := id) && forall k :: 0 <= k < |db| && k != i ==> r[k] == db[k]
  {
    match FirstMatch(db, id)
    case None => db
    case Some(i) => db[i := ApplyPatch(db[i], body)]
  }

  // ---------------------------------------------------------------- lemmas

  /** Filtering distributes over concatenation: the kept entries keep their order. */
  lemma {:induction false} WithoutAppend(a: seq<Appointment>, b: seq<Appointment>, id: int)
    ensures Without(a + b, id) == Without(a, id) + Without(b, id)
  {
    if a == [] {
      assert a + b == b;
    } else {
      assert (a + b)[1..] == a[1..] + b;
      WithoutAppend(a[1..], b, id);
    }
  }

  /** A list with no entry of id `id` is left as it is. */
  lemma {:induction false} WithoutNoMatch(db: seq<Appointment>, id: int)
    requires forall k :: 0 <= k < |db| ==> db[k].id != id
    ensures Without(db, id) == db
  {
    if db != [] {
      WithoutNoMatch(db[1..], id);
    }
  }

  /** Deleting twice is deleting once. */
  lemma WithoutIdempotent(db: seq<Appointment>, id: int)
    ensures Without(Without(db, id), id) == Without(db, id)
  {
    WithoutNoMatch(Without(db, id), id);
  }

  /**
   * Two kept entries appear in the result in the order they had: entry `i`
   * lands at the number of kept entries before it, and so does entry `j`.
   */
  lemma WithoutKeepsOrder(db: seq<Appointment>, id: int, i: nat, j: nat)
    requires i < j < |db| && db[i].id != id && db[j].id != id
    ensures var r := Without(db, id);
            var i', j' := |Without(db[..i], id)|, |Without(db[..j], id)|;
            i' < j' < |r| && r[i'] == db[i] && r[j'] == db[j]
  {
    WithoutAt(db, id, i);
    WithoutAt(db, id, j);
    WithoutPrefixGrows(db, id, i, j);
  }

  /** A kept entry at `i` makes every longer prefix keep more than `db[..i]` does. */
  lemma WithoutPrefixGrows(db: seq<Appointment>, id: int, i: nat, j: nat)
    requires i < j <= |db| && db[i].id != id
    ensures |Without(db[..i], id)| < |Without(db[..j], id)|
  {
    assert db[..j] == db[..i] + ([db[i]] + db[i + 1..j]);
    WithoutAppend(db[..i], [db[i]] + db[i + 1..j], id);
    WithoutAppend([db[i]], db[i + 1..j], id);
  }

  /** A kept entry lands at the number of kept entries before it. */
  lemma WithoutAt(db: seq<Appointment>, id: int, i: nat)
    requires i < |db| && db[i].id != id
    ensures |Without(db[..i], id)| < |Without(db, id)|
    ensures Without(db, id)[|Without(db[..i], id)|] == db[i]
  {
    assert db == db[..i] + [db[i]] + db[i + 1..];
    WithoutAppend(db[..i] + [db[i]], db[i + 1..], id);
    WithoutAppend(db[..i], [db[i]], id);
  }

  /** Deleting the id of an appointment just created removes it again. */
  lemma CreateThenDelete(db: seq<Appointment>, a: Appointment)
    ensures Without(db + [a], a.id) == Without(db, a.id)
  {
    WithoutAppend(db, [a], a.id);
  }

  /** After a delete of `id`, an update of `id` finds nothing and is a 404. */
  lemma DeleteThenUpdateNotFound(db: seq<Appointment>, id: int)
    ensures FirstMatch(Without(db, id), id).None?
  {
  }

  /** An update never changes which entry an id first matches. */
  lemma UpdatedFirstMatch(db: seq<Appointment>, id: int, body: Appointment)
    ensures FirstMatch(Updated(db, id, body), id) == FirstMatch(db, id)
  {
  }

  /** Updating twice with the same body is updating once. */
  lemma UpdatedIdempotent(db: seq<Appointment>, id: int, body: Appointment)
    ensures Updated(Updated(db, id, body), id, body) == Updated(db, id, body)
  {
  }

  /** Deleting after an update gives what deleting alone gives. */
  lemma UpdateThenDelete(db: seq<Appointment>, id: int, body: Appointment)
    ensures Without(Updated(db, id, body), id) == Without(db, id)
  {
    match FirstMatch(db, id)
    case None =>
    case Some(i) =>
      var p := ApplyPatch(db[i], body);
      assert db == db[..i] + ([db[i]] + db[i + 1..]);
      assert Updated(db, id, body) == db[..i] + ([p] + db[i + 1..]);
      WithoutAppend(db[..i], [db[i]] + db[i + 1..], id);
      WithoutAppend([db[i]], db[i + 1..], id);
      WithoutAppend(db[..i], [p] + db[i + 1..], id);
      WithoutAppend([p], db[i + 1..], id);
  }

  // ------------------------------------------------------------- the store

  /** The API's state: the fixed user table and the mutable appointment list. */
  class AppointmentApi {
    const users: UserTable
    var db: seq<Appointment>

    constructor (users: UserTable)
      ensures this.users == users && db == []
    {
      this.users := users;
      db := [];
    }

    /** Lists every appointment, in order, for any authenticated user. */
    method GetAppointments(t: Token, now: int) returns (r: Result<seq<Appointment>, HttpError>)
      ensures r.Ok? <==> GetCurrentUser(users, t, now).Ok?
      ensures r.Ok? ==> r.value == db
      ensures r.Err? ==> r.error == GetCurrentUser(users, t, now).error
    {
      var user := GetCurrentUser(users, t, now);
      if user.Err? {
        return Err(user.error);
      }
      r := Ok(db);
    }

    /** Appends `appointment` at the end and returns it; admin only. */
    method CreateAppointment(t: Token, now: int, appointment: Appointment)
      returns (r: Result<Appointment, HttpError>)
      modifies this`db
      ensures AdminGate(users, t, now).Some? ==>
                r == Err(AdminGate(users, t, now).value) && db == old(db)
      ensures AdminGate(users, t, now).None? ==>
                r == Ok(appointment) && db == old(db) + [appointment]
    {
      var denied := AdminGate(users, t, now);
      if denied.Some? {
        return Err(denied.value);
      }
      db := db + [appointment];
      r := Ok(appointment);
    }

    /**
     * Removes every entry with id `id`, keeping the others in order; admin
     * only. Reports success whether or not anything matched.
     */
    method DeleteAppointment(t: Token, now: int, id: int) returns (r: Result<string, HttpError>)
      modifies this`db
      ensures AdminGate(users, t, now).Some? ==>
                r == Err(AdminGate(users, t, now).value) && db == old(db)
      ensures AdminGate(users, t, now).None? ==>
                r == Ok(AppointmentDeleted) && db == Without(old(db), id)
    {
      var denied := AdminGate(users, t, now);
      if denied.Some? {
        return Err(denied.value);
      }
      var all := db;
      var kept: seq<Appointment> := [];
      var i := 0;
      while i < |all|
        invariant 0 <= i <= |all|
        invariant kept == Without(all[..i], id)
      {
        assert all[..i + 1] == all[..i] + [all[i]];
        WithoutAppend(all[..i], [all[i]], id);
        if all[i].id != id {
          kept := kept + [all[i]];
        }
        i := i + 1;
      }
      assert all[..i] == all;
      db := kept;
      r := Ok(AppointmentDeleted);
    }

    /**
     * Overwrites patient, doctor, date and status of the first entry with id
     * `id` from `body` and returns it; admin only; 404 when no entry has it.
     */
    method UpdateAppointment(t: Token, now: int, id: int, body: Appointment)
      returns (r: Result<Appointment, HttpError>)
      modifies this`db
      ensures AdminGate(users, t, now).Some? ==>
                r == Err(AdminGate(users, t, now).value) && db == old(db)
      ensures AdminGate(users, t, now).None? && FirstMatch(old(db), id).None? ==>
                r == Err(AppointmentNotFound) && db == old(db)
      ensures AdminGate(users, t, now).None? && FirstMatch(old(db), id).Some? ==>
                db == Updated(old(db), id, body) && r == Ok(db[FirstMatch(old(db), id).value])
    {
      var denied := AdminGate(users, t, now);
      if denied.Some? {
        return Err(denied.value);
      }
      var i := 0;
      while i < |db| && db[i].id != id
        invariant 0 <= i <= |db|
        invariant forall k :: 0 <= k < i ==> db[k].id != id
      {
        i := i + 1;
      }
      if i == |db| {
        return Err(AppointmentNotFound);
      }
      db := db[i := ApplyPatch(db[i], body)];
      r := Ok(db[i]);
    }
  }

  /** The admin and user scenarios end to end on the fixed user table. */
  method Scenarios(now: int)
  {
    var api := new AppointmentApi(FakeUsersDb);
    var a := Appointment(1, "A", "B", 0, "scheduled");

    var adminLogin := Login(FakeUsersDb, "admin", "admin123", now);
    var adminToken := adminLogin.value.accessToken;
    var created := api.CreateAppointment(adminToken, now, a);
    assert created == Ok(a) && api.db == [a];
    var listed := api.GetAppointments(adminToken, now);
    assert listed == Ok([a]);

    var userLogin := Login(FakeUsersDb, "user", "user123", now);
    var userToken := userLogin.value.accessToken;
    var refused := api.CreateAppointment(userToken, now, a);
    assert refused == Err(NotAuthorized) && api.db == [a];

    var missing := api.UpdateAppointment(adminToken, now, 999, a);
    assert missing == Err(AppointmentNotFound);

    var wrong := Login(FakeUsersDb, "admin", "wrong", now);
    assert wrong == Err(IncorrectCredentials);
  }
}
