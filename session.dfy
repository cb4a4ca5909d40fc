/** The per-user session: the login lookup in the admin user table and the
    FIRE settings read from the user's Settings sheet. */
module Session {
  import opened Text
  import opened Records

  // ---- Login ----

  /** A row of the admin Users sheet. */
  datatype UserRecord = UserRecord(username: string, password: string, targetSheet: string)

  /** Username and password agree once surrounding whitespace is stripped. */
  predicate Matches(u: UserRecord, username: string, password: string)
  {
    Strip(u.username) == Strip(username) && Strip(u.password) == Strip(password)
  }

  /** Row i matches and no earlier row does. */
  predicate FirstMatchAt(users: seq<UserRecord>, username: string, password: string, i: int)
  {
    && 0 <= i < |users|
    && Matches(users[i], username, password)
    && forall j :: 0 <= j < i ==> !Matches(users[j], username, password)
  }

  /** The login search: the target sheet of the first matching row, or
      None when no row matches. The user table is passed in as read; a
      failed connection is a None from the caller. */
  method CheckLogin(users: seq<UserRecord>, username: string, password: string) returns (r: Option<string>)
    ensures r.None? <==> forall i :: 0 <= i < |users| ==> !Matches(users[i], username, password)
    ensures r.Some? ==> exists i :: FirstMatchAt(users, username, password, i) && r.value == users[i].targetSheet
  {
    var name := Strip(username);
    var pass := Strip(password);
    for i := 0 to |users|
      invariant forall j :: 0 <= j < i ==> !Matches(users[j], username, password)
    {
      if Strip(users[i].username) == name && Strip(users[i].password) == pass {
        assert FirstMatchAt(users, username, password, i);
        return Some(users[i].targetSheet);
      }
    }
    return None;
  }

  // ---- Settings ----

  /** The FIRE settings of a user. */
  datatype Settings = Settings(expense: real, age: int, savings: real, returnRate: real)

  const DefaultExpense: real := 850000.0
  const DefaultAge: int := 27
  const DefaultSavings: real := 325000.0
  const DefaultReturnRate: real := 11.0

  /** The value of a key in the Key/Value rows; a later row overrides an
      earlier one, as building a dict from the rows does. */
  function Lookup(rows: seq<(string, real)>, key: string): Option<real>
    decreases |rows|
  {
    if rows == [] then None
    else if rows[|rows| - 1].0 == key then Some(rows[|rows| - 1].1)
    else Lookup(rows[..|rows| - 1], key)
  }

  function Get(rows: seq<(string, real)>, key: string, default: real): real
  {
    match Lookup(rows, key)
    case Some(v) => v
    case None => default
  }

  /** int() of a real: truncation toward zero. */
  function Truncate(x: real): (t: int)
    ensures x >= 0.0 ==> t as real <= x < t as real + 1.0
    ensures x < 0.0 ==> t as real - 1.0 < x <= t as real
  {
    if x >= 0.0 then x.Floor else -((-x).Floor)
  }

  /** The settings read from the Settings sheet, with the defaults for
      missing keys. */
  function LoadSettings(rows: seq<(string, real)>): Settings
  {
    Settings(
      Get(rows, "expense", DefaultExpense),
      Truncate(Get(rows, "age", 27.0)),
      Get(rows, "savings", DefaultSavings),
      Get(rows, "return_rate", DefaultReturnRate))
  }

  /** Row i has the key and no later row has it. */
  predicate LastWith(rows: seq<(string, real)>, key: string, i: int)
  {
    0 <= i < |rows| && rows[i].0 == key && forall j :: i < j < |rows| ==> rows[j].0 != key
  }

  lemma {:induction false} LookupNone(rows: seq<(string, real)>, key: string)
    ensures Lookup(rows, key).None? <==> forall i :: 0 <= i < |rows| ==> rows[i].0 != key
    decreases |rows|
  {
    if rows != [] {
      var n := |rows| - 1;
      LookupNone(rows[..n], key);
      assert forall i :: 0 <= i < n ==> rows[..n][i] == rows[i];
    }
  }

  lemma {:induction false} LookupFound(rows: seq<(string, real)>, key: string)
    ensures Lookup(rows, key).Some? ==> exists i :: LastWith(rows, key, i) && rows[i].1 == Lookup(rows, key).value
    decreases |rows|
  {
    if rows != [] {
      var n := |rows| - 1;
      if rows[n].0 == key {
        assert LastWith(rows, key, n);
      } else {
        var init := rows[..n];
        LookupFound(init, key);
        if Lookup(init, key).Some? {
          var i :| LastWith(init, key, i) && init[i].1 == Lookup(init, key).value;
          assert forall j :: 0 <= j < n ==> init[j] == rows[j];
          assert LastWith(rows, key, i);
        }
      }
    }
  }

  /** Lookup finds the last row with the key, and nothing when no row has it. */
  lemma LookupLast(rows: seq<(string, real)>, key: string)
    ensures Lookup(rows, key).None? <==> forall i :: 0 <= i < |rows| ==> rows[i].0 != key
    ensures Lookup(rows, key).Some? ==> exists i :: LastWith(rows, key, i) && rows[i].1 == Lookup(rows, key).value
  {
    LookupNone(rows, key);
    LookupFound(rows, key);
  }

  /** A sheet without a key gives that setting's default; an empty sheet
      gives all defaults. */
  lemma SettingsDefaults(rows: seq<(string, real)>)
    ensures (forall i :: 0 <= i < |rows| ==> rows[i].0 != "age") ==> LoadSettings(rows).age == DefaultAge
    ensures (forall i :: 0 <= i < |rows| ==> rows[i].0 != "expense") ==> LoadSettings(rows).expense == DefaultExpense
    ensures (forall i :: 0 <= i < |rows| ==> rows[i].0 != "savings") ==> LoadSettings(rows).savings == DefaultSavings
    ensures (forall i :: 0 <= i < |rows| ==> rows[i].0 != "return_rate") ==> LoadSettings(rows).returnRate == DefaultReturnRate
    ensures rows == [] ==> LoadSettings(rows) == Settings(DefaultExpense, DefaultAge, DefaultSavings, DefaultReturnRate)
  {
    LookupLast(rows, "age");
    LookupLast(rows, "expense");
    LookupLast(rows, "savings");
    LookupLast(rows, "return_rate");
  }

  /** The value of a key after one more row. */
  lemma LookupSnoc(rows: seq<(string, real)>, key: string, k: string, v: real)
    ensures Lookup(rows + [(k, v)], key) == if k == key then Some(v) else Lookup(rows, key)
  {
    assert (rows + [(k, v)])[..|rows|] == rows;
  }

  /** Saving the settings and reading them back gives the same settings. */
  lemma SettingsRoundTrip(s: Settings)
    ensures LoadSettings([("expense", s.expense), ("age", s.age as real), ("savings", s.savings),
                          ("return_rate", s.returnRate)]) == s
  {
    var e, a, sv, r := ("expense", s.expense), ("age", s.age as real), ("savings", s.savings), ("return_rate", s.returnRate);
    assert [e, a, sv, r] == [e] + [a] + [sv] + [r];
    assert "expense"[0] != "savings"[0] && "expense"[0] != "return_rate"[0] && "savings"[0] != "return_rate"[0];
    assert |"age"| != |"expense"| && |"age"| != |"savings"| && |"age"| != |"return_rate"|;
    forall key | key in {"expense", "age", "savings", "return_rate"}
      ensures Lookup([e, a, sv, r], key) == if key == "return_rate" then Some(s.returnRate)
        else if key == "savings" then Some(s.savings)
        else if key == "age" then Some(s.age as real)
        else Some(s.expense)
    {
      LookupSnoc([], key, e.0, e.1);
      assert [] + [e] == [e];
      LookupSnoc([e], key, a.0, a.1);
      LookupSnoc([e] + [a], key, sv.0, sv.1);
      LookupSnoc([e] + [a] + [sv], key, r.0, r.1);
    }
    assert Truncate(s.age as real) == s.age;
  }
}
