/** Wallet bindings: a table of rows, each binding a public key to a user. */
module Wallet {
  import opened Common
  import opened Ledger

  type Key = nat
  type User = nat

  datatype Row = Row(key: Key, user: User, isPrimary: bool)

  /** Users are numbered in the order they are created. */
  datatype State = State(users: nat, rows: seq<Row>)

  datatype Error = Conflict | NotOwned | OnlyWallet | NoSuchUser

  datatype Call =
    | Login(key: Key)
    | Bind(key: Key, user: User, isPrimary: bool)
    /** The database picks which of the user's remaining wallets the look-up after a removal returns. */
    | Unbind(key: Key, user: User, pick: Key)

  // ---------------------------------------------------------------- table operations

  predicate Bound(rows: seq<Row>, key: Key) {
    exists i :: 0 <= i < |rows| && rows[i].key == key
  }

  predicate BoundTo(rows: seq<Row>, key: Key, user: User) {
    exists i :: 0 <= i < |rows| && rows[i].key == key && rows[i].user == user
  }

  function FindUser(rows: seq<Row>, key: Key): Option<User> {
    if rows == [] then None
    else if rows[|rows| - 1].key == key then Some(rows[|rows| - 1].user)
    else FindUser(rows[..|rows| - 1], key)
  }

  function WalletsOf(rows: seq<Row>, user: User): nat {
    if rows == [] then 0
    else
      WalletsOf(rows[..|rows| - 1], user) + (if rows[|rows| - 1].user == user then 1 else 0)
  }

  function PrimariesOf(rows: seq<Row>, user: User): nat {
    if rows == [] then 0
    else
      var last := rows[|rows| - 1];
      PrimariesOf(rows[..|rows| - 1], user) + (if last.user == user && last.isPrimary then 1 else 0)
  }

  /** The update that makes all the user's wallets non-primary. */
  function Demoted(rows: seq<Row>, user: User): seq<Row> {
    if rows == [] then []
    else
      var last := rows[|rows| - 1];
      Demoted(rows[..|rows| - 1], user) + [if last.user == user then last.(isPrimary := false) else last]
  }

  function Removed(rows: seq<Row>, key: Key, user: User): seq<Row> {
    if rows == [] then []
    else
      var last := rows[|rows| - 1];
      Removed(rows[..|rows| - 1], key, user) + (if last.key == key && last.user == user then [] else [last])
  }

  function Promoted(rows: seq<Row>, key: Key, user: User): seq<Row> {
    if rows == [] then []
    else
      var last := rows[|rows| - 1];
      Promoted(rows[..|rows| - 1], key, user)
      + [if last.key == key && last.user == user then last.(isPrimary := true) else last]
  }

  predicate HasPrimary(rows: seq<Row>, key: Key, user: User) {
    exists i :: 0 <= i < |rows| && rows[i] == Row(key, user, true)
  }

  // ---------------------------------------------------------------- service calls

  function DoBind(s: State, key: Key, user: User, isPrimary: bool): Result<State, Error> {
    if Bound(s.rows, key) then Failure(Conflict)
    else if user >= s.users then Failure(NoSuchUser)
    else Success(s.(rows := (if isPrimary then Demoted(s.rows, user) else s.rows) + [Row(key, user, isPrimary)]))
  }

  /** The user row is saved before its wallet is bound, and stays if that fails. */
  function DoCreateUserWithWallet(s: State, key: Key): State {
    var created := s.(users := s.users + 1);
    match DoBind(created, key, s.users, true)
    case Success(after) => after
    case Failure(_) => created
  }

  function DoUnbind(s: State, key: Key, user: User, pick: Key): Result<State, Error> {
    if !BoundTo(s.rows, key, user) then Failure(NotOwned)
    else if WalletsOf(s.rows, user) == 1 then Failure(OnlyWallet)
    else
      var rest := Removed(s.rows, key, user);
      Success(s.(rows := if HasPrimary(s.rows, key, user) then Promoted(rest, pick, user) else rest))
  }

  /** What the look-up may return: a remaining wallet of the user, if there is one. */
  predicate CanPick(s: State, c: Call) {
    c.Unbind? ==>
      var rest := Removed(s.rows, c.key, c.user);
      WalletsOf(rest, c.user) > 0 ==> BoundTo(rest, c.pick, c.user)
  }

  function OrElse(r: Result<State, Error>, s: State): State {
    if r.Success? then r.value else s
  }

  function Step(s: State, c: Call): State {
    match c
    case Login(key) => if FindUser(s.rows, key).Some? then s else DoCreateUserWithWallet(s, key)
    case Bind(key, user, isPrimary) => OrElse(DoBind(s, key, user, isPrimary), s)
    case Unbind(key, user, pick) => OrElse(DoUnbind(s, key, user, pick), s)
  }

  function Run(s: State, calls: seq<Call>): State
    decreases |calls|
  {
    if calls == [] then s else Step(Run(s, calls[..|calls| - 1]), calls[|calls| - 1])
  }

  /** Every look-up of the run returned something it could. */
  predicate Possible(s: State, calls: seq<Call>)
    decreases |calls|
  {
    calls != [] ==>
      Possible(s, calls[..|calls| - 1]) && CanPick(Run(s, calls[..|calls| - 1]), calls[|calls| - 1])
  }

  // ---------------------------------------------------------------- what every run keeps

  /** A key is bound once; rows belong to existing users; every user has a wallet and just one primary. */
  ghost predicate UniqueKeys(rows: seq<Row>) {
    forall i, j :: 0 <= i < j < |rows| ==> rows[i].key != rows[j].key
  }

  ghost predicate RowsOfUsers(s: State) {
    forall i :: 0 <= i < |s.rows| ==> s.rows[i].user < s.users
  }

  ghost predicate Kept(s: State) {
    && UniqueKeys(s.rows)
    && RowsOfUsers(s)
    && forall user: User :: user < s.users ==> WalletsOf(s.rows, user) >= 1 && PrimariesOf(s.rows, user) == 1
  }

  lemma {:induction false} DemotedRows(rows: seq<Row>, user: User)
    ensures |Demoted(rows, user)| == |rows|
    ensures forall i :: 0 <= i < |rows| ==>
      Demoted(rows, user)[i] == if rows[i].user == user then rows[i].(isPrimary := false) else rows[i]
  {
    if rows != [] {
      DemotedRows(rows[..|rows| - 1], user);
    }
  }

  lemma {:induction false} DemotedCounts(rows: seq<Row>, user: User, other: User)
    ensures WalletsOf(Demoted(rows, user), other) == WalletsOf(rows, other)
    ensures PrimariesOf(Demoted(rows, user), other) == if other == user then 0 else PrimariesOf(rows, other)
  {
    NoRows(user, other);
    hide WalletsOf, PrimariesOf;
    if rows == [] {
    } else {
      var front, last := rows[..|rows| - 1], rows[|rows| - 1];
      DemotedCounts(front, user, other);
      assert rows == front + [last];
      CountsOfOneMore(front, last, other);
      CountsOfOneMore(Demoted(front, user), if last.user == user then last.(isPrimary := false) else last, other);
    }
  }

  lemma CountsOfOneMore(rows: seq<Row>, row: Row, user: User)
    ensures WalletsOf(rows + [row], user) == WalletsOf(rows, user) + (if row.user == user then 1 else 0)
    ensures PrimariesOf(rows + [row], user) == PrimariesOf(rows, user) + (if row.user == user && row.isPrimary then 1 else 0)
  {
    assert (rows + [row])[..|rows|] == rows;
  }

  lemma {:induction false} NoRowsNoCounts(rows: seq<Row>, user: User)
    requires forall i :: 0 <= i < |rows| ==> rows[i].user != user
    ensures WalletsOf(rows, user) == 0 && PrimariesOf(rows, user) == 0
  {
    if rows != [] {
      NoRowsNoCounts(rows[..|rows| - 1], user);
    }
  }

  lemma {:induction false} RemovedRows(rows: seq<Row>, key: Key, user: User)
    ensures forall row <- Removed(rows, key, user) :: row in rows
  {
    if rows != [] {
      var front := rows[..|rows| - 1];
      RemovedRows(front, key, user);
      assert forall row <- front :: row in rows;
    }
  }

  lemma UniqueKeysOneMore(rows: seq<Row>, row: Row)
    requires UniqueKeys(rows) && forall other <- rows :: other.key != row.key
    ensures UniqueKeys(rows + [row])
  {
  }

  lemma UniqueKeysFront(rows: seq<Row>)
    requires UniqueKeys(rows) && rows != []
    ensures UniqueKeys(rows[..|rows| - 1])
    ensures forall row <- rows[..|rows| - 1] :: row.key != rows[|rows| - 1].key
  {
  }

  lemma {:induction false} RemovedKeys(rows: seq<Row>, key: Key, user: User)
    requires UniqueKeys(rows)
    ensures UniqueKeys(Removed(rows, key, user))
  {
    assert UniqueKeys([]);
    hide UniqueKeys;
    if rows == [] {
    } else {
      var front, last := rows[..|rows| - 1], rows[|rows| - 1];
      UniqueKeysFront(rows);
      RemovedKeys(front, key, user);
      RemovedRows(front, key, user);
      UniqueKeysOneMore(Removed(front, key, user), last);
      assert Removed(front, key, user) + [] == Removed(front, key, user);
    }
  }

  lemma {:induction false} RemovedCounts(rows: seq<Row>, key: Key, user: User, other: User)
    requires UniqueKeys(rows)
    ensures WalletsOf(Removed(rows, key, user), other)
         == WalletsOf(rows, other) - (if other == user && BoundTo(rows, key, user) then 1 else 0)
    ensures PrimariesOf(Removed(rows, key, user), other)
         == PrimariesOf(rows, other) - (if other == user && HasPrimary(rows, key, user) then 1 else 0)
  {
    hide UniqueKeys, WalletsOf, PrimariesOf, BoundTo, HasPrimary, Removed;
    if rows == [] {
      NoRows(user, other);
      NoRowBound(key, user);
    } else {
      var front, last := rows[..|rows| - 1], rows[|rows| - 1];
      UniqueKeysFront(rows);
      RemovedCounts(front, key, user, other);
      LastIsOnlyMatch(rows, key, user);
      assert rows == front + [last];
      CountsOfOneMore(front, last, other);
      RemovedOneMore(front, last, key, user);
      CountsOfOneMore(Removed(front, key, user), last, other);
    }
  }

  lemma RemovedOneMore(rows: seq<Row>, row: Row, key: Key, user: User)
    ensures Removed(rows + [row], key, user)
         == if row.key == key && row.user == user then Removed(rows, key, user) else Removed(rows, key, user) + [row]
  {
    assert (rows + [row])[..|rows|] == rows;
    assert Removed(rows, key, user) + [] == Removed(rows, key, user);
  }

  lemma NoRows(user: User, other: User)
    ensures WalletsOf([], other) == 0 && PrimariesOf([], other) == 0 && Demoted([], user) == []
  {
  }

  lemma NoRowBound(key: Key, user: User)
    ensures !BoundTo([], key, user) && !HasPrimary([], key, user)
    ensures Removed([], key, user) == [] && Promoted([], key, user) == []
  {
  }

  lemma LastIsBound(rows: seq<Row>, row: Row)
    ensures BoundTo(rows + [row], row.key, row.user)
  {
    assert (rows + [row])[|rows|] == row;
  }

  lemma LastIsOnlyMatch(rows: seq<Row>, key: Key, user: User)
    requires UniqueKeys(rows) && rows != []
    ensures var front, last := rows[..|rows| - 1], rows[|rows| - 1];
      && (BoundTo(rows, key, user) <==> BoundTo(front, key, user) || (last.key == key && last.user == user))
      && (HasPrimary(rows, key, user) <==> HasPrimary(front, key, user) || last == Row(key, user, true))
      && (last.key == key ==> !BoundTo(front, key, user) && !HasPrimary(front, key, user))
  {
    var front := rows[..|rows| - 1];
    assert forall i :: 0 <= i < |front| ==> front[i] == rows[i];
  }

  lemma {:induction false} PromotedRows(rows: seq<Row>, key: Key, user: User)
    ensures |Promoted(rows, key, user)| == |rows|
    ensures forall i :: 0 <= i < |rows| ==>
      Promoted(rows, key, user)[i]
      == if rows[i].key == key && rows[i].user == user then rows[i].(isPrimary := true) else rows[i]
  {
    if rows != [] {
      PromotedRows(rows[..|rows| - 1], key, user);
    }
  }

  lemma {:induction false} PromotedCounts(rows: seq<Row>, key: Key, user: User, other: User)
    requires UniqueKeys(rows)
    ensures WalletsOf(Promoted(rows, key, user), other) == WalletsOf(rows, other)
    ensures PrimariesOf(Promoted(rows, key, user), other) == PrimariesOf(rows, other)
      + (if other == user && BoundTo(rows, key, user) && !HasPrimary(rows, key, user) then 1 else 0)
  {
    hide UniqueKeys, WalletsOf, PrimariesOf, BoundTo, HasPrimary;
    if rows == [] {
      NoRows(user, other);
      NoRowBound(key, user);
    } else {
      var front, last := rows[..|rows| - 1], rows[|rows| - 1];
      UniqueKeysFront(rows);
      PromotedCounts(front, key, user, other);
      LastIsOnlyMatch(rows, key, user);
      assert rows == front + [last];
      CountsOfOneMore(front, last, other);
      CountsOfOneMore(Promoted(front, key, user),
        if last.key == key && last.user == user then last.(isPrimary := true) else last, other);
    }
  }

  lemma BindKeeps(s: State, key: Key, user: User, isPrimary: bool)
    requires Kept(s) && DoBind(s, key, user, isPrimary).Success?
    ensures Kept(DoBind(s, key, user, isPrimary).value)
  {
    BindTable(s, key, user, isPrimary);
    var after := DoBind(s, key, user, isPrimary).value;
    forall other: User | other < s.users
      ensures WalletsOf(after.rows, other) >= 1 && PrimariesOf(after.rows, other) == 1
    {
      DemotedCounts(s.rows, user, other);
      CountsOfOneMore(if isPrimary then Demoted(s.rows, user) else s.rows, Row(key, user, isPrimary), other);
    }
  }

  /** Binding keeps keys unique and rows with users, whatever the counts. */
  lemma BindTable(s: State, key: Key, user: User, isPrimary: bool)
    requires UniqueKeys(s.rows) && RowsOfUsers(s) && DoBind(s, key, user, isPrimary).Success?
    ensures UniqueKeys(DoBind(s, key, user, isPrimary).value.rows) && RowsOfUsers(DoBind(s, key, user, isPrimary).value)
  {
    hide Demoted;
    DemotedRows(s.rows, user);
    var before := if isPrimary then Demoted(s.rows, user) else s.rows;
    assert forall i :: 0 <= i < |s.rows| ==> before[i].key == s.rows[i].key && before[i].user == s.rows[i].user;
  }

  /** A new user's first wallet makes the invariant whole again exactly when the key was free; the
      service itself saves the user either way. */
  lemma CreateKeepsIffFree(s: State, key: Key)
    requires Kept(s)
    ensures Kept(DoCreateUserWithWallet(s, key)) <==> !Bound(s.rows, key)
  {
    hide WalletsOf, PrimariesOf, UniqueKeys, Bound, Demoted;
    var user := s.users;
    NoRowsNoCounts(s.rows, user);
    if Bound(s.rows, key) {
      assert WalletsOf(DoCreateUserWithWallet(s, key).rows, user) == 0;
    } else {
      var created := s.(users := user + 1);
      BindTable(created, key, user, true);
      var after := DoCreateUserWithWallet(s, key);
      forall other: User | other < after.users
        ensures WalletsOf(after.rows, other) >= 1 && PrimariesOf(after.rows, other) == 1
      {
        DemotedCounts(s.rows, user, other);
        CountsOfOneMore(Demoted(s.rows, user), Row(key, user, true), other);
      }
    }
  }

  lemma {:induction false} FindUserFinds(rows: seq<Row>, key: Key)
    ensures FindUser(rows, key).Some? <==> Bound(rows, key)
    ensures FindUser(rows, key).Some? ==> BoundTo(rows, key, FindUser(rows, key).value)
  {
    if rows != [] {
      var front := rows[..|rows| - 1];
      FindUserFinds(front, key);
      assert forall i :: 0 <= i < |front| ==> front[i] == rows[i];
      if Bound(rows, key) && rows[|rows| - 1].key != key {
        assert Bound(front, key);
      }
    }
  }

  lemma UnbindTable(s: State, key: Key, user: User, pick: Key)
    requires UniqueKeys(s.rows) && RowsOfUsers(s) && DoUnbind(s, key, user, pick).Success?
    ensures UniqueKeys(DoUnbind(s, key, user, pick).value.rows) && RowsOfUsers(DoUnbind(s, key, user, pick).value)
  {
    hide Removed, Promoted, HasPrimary, BoundTo, WalletsOf;
    var rest := Removed(s.rows, key, user);
    RemovedKeys(s.rows, key, user);
    RemovedRows(s.rows, key, user);
    PromotedRows(rest, pick, user);
    assert forall i :: 0 <= i < |rest| ==> rest[i] in rest;
  }

  lemma UnbindKeeps(s: State, key: Key, user: User, pick: Key)
    requires Kept(s) && CanPick(s, Unbind(key, user, pick)) && DoUnbind(s, key, user, pick).Success?
    ensures Kept(DoUnbind(s, key, user, pick).value)
  {
    hide UniqueKeys, RowsOfUsers, Removed, Promoted, HasPrimary;
    UnbindTable(s, key, user, pick);
    var rest := Removed(s.rows, key, user);
    RemovedKeys(s.rows, key, user);
    OwnerExists(s, key, user);
    RemovedCounts(s.rows, key, user, user);
    NoPrimaryLeft(rest, pick, user);
    var after := DoUnbind(s, key, user, pick).value;
    forall other: User | other < s.users
      ensures WalletsOf(after.rows, other) >= 1 && PrimariesOf(after.rows, other) == 1
    {
      RemovedCounts(s.rows, key, user, other);
      PromotedCounts(rest, pick, user, other);
    }
  }

  lemma OwnerExists(s: State, key: Key, user: User)
    requires RowsOfUsers(s) && BoundTo(s.rows, key, user)
    ensures user < s.users
  {
  }

  lemma {:induction false} NoPrimaryLeft(rows: seq<Row>, key: Key, user: User)
    ensures HasPrimary(rows, key, user) ==> PrimariesOf(rows, user) > 0
  {
    if rows != [] {
      var front := rows[..|rows| - 1];
      NoPrimaryLeft(front, key, user);
      if HasPrimary(rows, key, user) && rows[|rows| - 1] != Row(key, user, true) {
        var i :| 0 <= i < |rows| && rows[i] == Row(key, user, true);
        assert front[i] == Row(key, user, true);
      }
    }
  }

  /** Over any run of logins, binds and unbinds every key belongs to one user at most, and every user
      has a wallet and exactly one primary. */
  lemma {:induction false} RunKeeps(s: State, calls: seq<Call>)
    requires Kept(s) && Possible(s, calls)
    ensures Kept(Run(s, calls))
    decreases |calls|
  {
    hide Kept, DoBind, DoUnbind, DoCreateUserWithWallet, CanPick;
    if calls != [] {
      var m, last := Run(s, calls[..|calls| - 1]), calls[|calls| - 1];
      RunKeeps(s, calls[..|calls| - 1]);
      match last {
        case Login(key) =>
          FindUserFinds(m.rows, key);
          CreateKeepsIffFree(m, key);
        case Bind(key, user, isPrimary) =>
          if DoBind(m, key, user, isPrimary).Success? {
            BindKeeps(m, key, user, isPrimary);
          }
        case Unbind(key, user, pick) =>
          if DoUnbind(m, key, user, pick).Success? {
            UnbindKeeps(m, key, user, pick);
          }
      }
    }
  }

  lemma StartIsKept()
    ensures Kept(State(0, []))
  {
  }

  /** A login leaves its key bound to one user, who any later login with that key finds again. */
  lemma LoginIsStable(s: State, key: Key)
    ensures FindUser(Step(s, Login(key)).rows, key).Some?
    ensures Step(Step(s, Login(key)), Login(key)) == Step(s, Login(key))
  {
    FindUserFinds(s.rows, key);
  }

  lemma {:induction false} RemovedAbsent(rows: seq<Row>, key: Key, user: User)
    requires !Bound(rows, key)
    ensures Removed(rows, key, user) == rows
  {
    if rows != [] {
      var front := rows[..|rows| - 1];
      assert !Bound(front, key) && rows[|rows| - 1].key != key by {
        assert forall i :: 0 <= i < |front| ==> front[i] == rows[i];
      }
      RemovedAbsent(front, key, user);
      assert front + [rows[|rows| - 1]] == rows;
    }
  }

  /** Binding a second wallet and unbinding it leaves the table as it was. */
  lemma BindThenUnbind(s: State, key: Key, user: User, pick: Key)
    requires Kept(s) && DoBind(s, key, user, false).Success?
    ensures DoUnbind(DoBind(s, key, user, false).value, key, user, pick) == Success(s)
  {
    hide WalletsOf, PrimariesOf, BoundTo, HasPrimary, Bound;
    var row := Row(key, user, false);
    var rows := s.rows + [row];
    assert rows[..|s.rows|] == s.rows && rows[|s.rows|] == row;
    RemovedAbsent(s.rows, key, user);
    CountsOfOneMore(s.rows, row, user);
    LastIsBound(s.rows, row);
    BindTable(s, key, user, false);
    LastIsOnlyMatch(rows, key, user);
    assert WalletsOf(s.rows, user) >= 1;
    assert s.rows + [] == s.rows;
    assert Removed(rows, key, user) == s.rows;
  }

  lemma {:induction false} SomeWallet(rows: seq<Row>, user: User)
    ensures WalletsOf(rows, user) > 0 <==> exists i :: 0 <= i < |rows| && rows[i].user == user
  {
    if rows != [] {
      var front := rows[..|rows| - 1];
      SomeWallet(front, user);
      assert forall i :: 0 <= i < |front| ==> front[i] == rows[i];
      if i :| 0 <= i < |rows| && rows[i].user == user && rows[|rows| - 1].user != user {
        assert front[i].user == user;
      }
    }
  }

  /** The service over its table, whose public-key column is unique. */
  class Service {
    var users: nat
    var rows: seq<Row>

    ghost function Stored(): State
      reads this
    {
      State(users, rows)
    }

    constructor ()
      ensures Stored() == State(0, [])
    {
      users, rows := 0, [];
    }

    method BindWalletToUser(key: Key, user: User, isPrimary: bool) returns (r: Result<Row, Error>)
      modifies this`rows
      ensures match DoBind(old(Stored()), key, user, isPrimary)
        case Success(after) => Stored() == after && r == Success(Row(key, user, isPrimary))
        case Failure(e) => Stored() == old(Stored()) && r == Failure(e)
    {
      FindUserFinds(rows, key);
      var existing := FindUser(rows, key);
      if existing.Some? {
        return Failure(Conflict);
      }
      if user >= users {
        return Failure(NoSuchUser);
      }
      if isPrimary {
        rows := Demoted(rows, user);
      }
      var binding := Row(key, user, isPrimary);
      rows := rows + [binding];
      r := Success(binding);
    }

    method CreateUserWithWallet(key: Key) returns (r: Result<User, Error>)
      modifies this
      ensures Stored() == DoCreateUserWithWallet(old(Stored()), key)
      ensures r == if Bound(old(rows), key) then Failure(Conflict) else Success(old(users))
    {
      var user := users;
      users := users + 1;
      var binding := BindWalletToUser(key, user, true);
      r := if binding.Success? then Success(user) else Failure(binding.error);
    }

    method Login(key: Key) returns (r: Result<User, Error>)
      modifies this
      ensures Stored() == Step(old(Stored()), Call.Login(key))
      ensures r.Success? && FindUser(rows, key) == Some(r.value)
    {
      var found := FindUser(rows, key);
      if found.Some? {
        return Success(found.value);
      }
      FindUserFinds(rows, key);
      r := CreateUserWithWallet(key);
      LoginIsStable(old(Stored()), key);
    }

    method UnbindWallet(key: Key, user: User) returns (r: Result<(), Error>, ghost pick: Key)
      requires UniqueKeys(rows)
      modifies this`rows
      ensures CanPick(old(Stored()), Unbind(key, user, pick))
      ensures match DoUnbind(old(Stored()), key, user, pick)
        case Success(after) => Stored() == after && r == Success(())
        case Failure(e) => Stored() == old(Stored()) && r == Failure(e)
    {
      hide WalletsOf, Removed, Promoted;
      SomeWallet(Removed(rows, key, user), user);
      ghost var rest := Removed(rows, key, user);
      if j :| 0 <= j < |rest| && rest[j].user == user {
        pick := rest[j].key;
      } else {
        pick := key;
      }
      if !BoundTo(rows, key, user) {
        return Failure(NotOwned), pick;
      }
      var wasPrimary := HasPrimary(rows, key, user);
      if WalletsOf(rows, user) == 1 {
        return Failure(OnlyWallet), pick;
      }
      rows := Removed(rows, key, user);
      if wasPrimary {
        if i :| 0 <= i < |rows| && rows[i].user == user {
          var another := rows[i].key;
          rows := Promoted(rows, another, user);
          pick := another;
        } else {
          NothingToPromote(rows, key, user);
        }
      }
      r := Success(());
    }
  }

  lemma {:induction false} NothingToPromote(rows: seq<Row>, key: Key, user: User)
    requires forall i :: 0 <= i < |rows| ==> rows[i].user != user
    ensures Promoted(rows, key, user) == rows
  {
    if rows != [] {
      NothingToPromote(rows[..|rows| - 1], key, user);
      assert rows == rows[..|rows| - 1] + [rows[|rows| - 1]];
    }
  }
}
