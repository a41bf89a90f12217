/**
 * User management of the settings GUI: user records keyed by username,
 * their roles and house lists, the permission checks on houses, and
 * pending actions confirmed by e-mail tokens.  The JSON file the source
 * loads and saves around every operation is the state of `UserStore`.
 */
module Auth {
  import opened Common

  /** A JSON value stored in a user record. */
  datatype Value = Text(text: string) | TextList(items: seq<string>) | Null

  /** A user record: its JSON keys and values. */
  type Record = map<string, Value>

  const Roles := ["user", "viewer", "admin"]
  const PendingRole := "pending"
  const AllHouses := "*"
  const SecondsPerHour := 3600

  /**
   * A record the permission checks can read: it has a textual role, and
   * its house list, when present, is a list.
   */
  predicate WellFormed(r: Record)
  {
    && "role" in r && r["role"].Text?
    && ("houses" in r ==> r["houses"].TextList?)
  }

  function RoleOf(r: Record): string
    requires WellFormed(r)
  {
    r["role"].text
  }

  /** `user.get('houses', [])`. */
  function HousesOf(r: Record): seq<string>
    requires WellFormed(r)
  {
    if "houses" in r then r["houses"].items else []
  }

  /** The record `create_user` stores: the password only as its hash, not yet approved. */
  function NewUserRecord(name: string, email: string, passwordHash: string, role: string, houses: seq<string>,
                         createdAt: string, registrationNote: string, homesideUsername: string,
                         homesidePassword: string, houseFriendlyName: string): (r: Record)
    ensures WellFormed(r) && RoleOf(r) == role && HousesOf(r) == houses
    ensures "password_hash" in r && r["password_hash"] == Text(passwordHash)
    ensures "approved_by" in r && r["approved_by"] == Null
    ensures "password" !in r
  {
    map[
      "name" := Text(name), "email" := Text(email), "password_hash" := Text(passwordHash),
      "role" := Text(role), "houses" := TextList(houses),
      "created_at" := Text(createdAt), "approved_by" := Null, "approved_at" := Null,
      "registration_note" := Text(registrationNote), "homeside_username" := Text(homesideUsername),
      "homeside_password" := Text(homesidePassword), "house_friendly_name" := Text(houseFriendlyName)]
  }

  // ---------------------------------------------------------------------
  // Permissions
  // ---------------------------------------------------------------------

  /** `can_access_house`: admins and users with `*` see every house, others their own. */
  function CanAccessHouse(users: map<string, Record>, username: string, houseId: string): (ok: bool)
    requires username in users ==> WellFormed(users[username])
    ensures username !in users ==> !ok
    ensures username in users ==>
      (ok <==> RoleOf(users[username]) == "admin" || AllHouses in HousesOf(users[username])
                || houseId in HousesOf(users[username]))
  {
    if username !in users then false
    else
      var user := users[username];
      if RoleOf(user) == "admin" then true
      else if AllHouses in HousesOf(user) then true
      else houseId in HousesOf(user)
  }

  /** `can_edit_house`: viewers never edit; admins edit everything; others as for access. */
  function CanEditHouse(users: map<string, Record>, username: string, houseId: string): (ok: bool)
    requires username in users ==> WellFormed(users[username])
    ensures username in users && RoleOf(users[username]) == "viewer" ==> !ok
    ensures username in users && RoleOf(users[username]) == "admin" ==> ok
  {
    if username !in users then false
    else
      var user := users[username];
      if RoleOf(user) == "viewer" then false
      else if RoleOf(user) == "admin" then true
      else if AllHouses in HousesOf(user) then true
      else houseId in HousesOf(user)
  }

  /** Editing a house is exactly accessing it without being a viewer. */
  lemma EditIsAccessExceptViewers(users: map<string, Record>, username: string, houseId: string)
    requires username in users ==> WellFormed(users[username])
    ensures CanEditHouse(users, username, houseId) <==>
      CanAccessHouse(users, username, houseId) && RoleOf(users[username]) != "viewer"
  {
  }

  // ---------------------------------------------------------------------
  // Updating a record
  // ---------------------------------------------------------------------

  /**
   * One keyword argument of `update_user`: a password is stored only as its
   * hash; any other key is written only when the record already has it.
   */
  function ApplyUpdate(r: Record, key: string, value: Value, hashOf: string -> string): Record
  {
    if key == "password" then
      (if value.Text? then r["password_hash" := Text(hashOf(value.text))] else r)
    else if key in r then r[key := value]
    else r
  }

  function ApplyUpdates(r: Record, updates: seq<(string, Value)>, hashOf: string -> string): Record
  {
    if updates == [] then r
    else
      var n := |updates| - 1;
      ApplyUpdate(ApplyUpdates(r, updates[..n], hashOf), updates[n].0, updates[n].1, hashOf)
  }

  predicate SuppliesPassword(updates: seq<(string, Value)>)
  {
    exists k :: 0 <= k < |updates| && updates[k].0 == "password" && updates[k].1.Text?
  }

  /**
   * Updating never adds a key other than the password hash (added only when
   * a password is supplied), never removes one, and never stores the plain
   * password; keys no update names keep their values.
   */
  lemma {:induction false} UpdatesKeepKeys(r: Record, updates: seq<(string, Value)>, hashOf: string -> string)
    ensures var r' := ApplyUpdates(r, updates, hashOf);
      && (forall key :: key in r' <==> key in r || (key == "password_hash" && SuppliesPassword(updates)))
      && ("password" in r' ==> "password" in r && r'["password"] == r["password"])
      && (forall key :: key in r && key != "password_hash" && (forall k :: 0 <= k < |updates| ==> updates[k].0 != key) ==>
            r'[key] == r[key])
  {
    if updates != [] {
      var n := |updates| - 1;
      UpdatesKeepKeys(r, updates[..n], hashOf);
      assert forall k :: 0 <= k < n ==> updates[..n][k] == updates[k];
      assert SuppliesPassword(updates) <==>
        SuppliesPassword(updates[..n]) || (updates[n].0 == "password" && updates[n].1.Text?);
    }
  }

  /** The role `approve_user` stores: a role outside user/viewer/admin becomes "user". */
  function NormalizeRole(role: string): (r: string)
    ensures r in Roles
    ensures role in Roles ==> r == role
  {
    if role in Roles then role else "user"
  }

  // ---------------------------------------------------------------------
  // Pending actions
  // ---------------------------------------------------------------------

  /** A pending action; times are seconds since the epoch. */
  datatype PendingAction = PendingAction(
    actionType: string, houseId: string, userId: string, description: string,
    createdAt: int, expiresAt: int, status: string, completedAt: Option<int>)

  /** `get_pending_action`: the action, unless it is missing, expired or no longer pending. */
  function GetPendingAction(actions: map<string, PendingAction>, token: string, now: int): (r: Option<PendingAction>)
    ensures r.Some? <==> token in actions && now <= actions[token].expiresAt && actions[token].status == "pending"
    ensures r.Some? ==> r.value == actions[token]
  {
    if token !in actions then None
    else
      var action := actions[token];
      if now > action.expiresAt then None
      else if action.status != "pending" then None
      else Some(action)
  }

  // ---------------------------------------------------------------------
  // The user store
  // ---------------------------------------------------------------------

  class UserStore {
    var users: map<string, Record>
    var pendingActions: map<string, PendingAction>

    /** A new store file holds no users and no actions. */
    constructor ()
      ensures users == map[] && pendingActions == map[]
    {
      users := map[];
      pendingActions := map[];
    }

    /**
     * `create_user`: fails when the username is taken; otherwise stores a
     * record with the hashed password, the given role and house list, and
     * no approval.
     */
    method CreateUser(username: string, password: string, name: string, email: string, role: string,
                      houses: Option<seq<string>>, registrationNote: string, homesideUsername: string,
                      homesidePassword: string, houseFriendlyName: string, createdAt: string,
                      hashOf: string -> string)
      returns (ok: bool)
      modifies this
      ensures ok <==> username !in old(users)
      ensures pendingActions == old(pendingActions)
      ensures !ok ==> users == old(users)
      ensures ok ==> users.Keys == old(users).Keys + {username}
      ensures ok ==> forall u :: u in old(users) ==> users[u] == old(users)[u]
      ensures ok ==>
        && WellFormed(users[username]) && RoleOf(users[username]) == role
        && HousesOf(users[username]) == (if houses.Some? then houses.value else [])
        && "password_hash" in users[username] && users[username]["password_hash"] == Text(hashOf(password))
        && "approved_by" in users[username] && users[username]["approved_by"] == Null
        && "password" !in users[username]
      ensures ok ==> users == old(users)[username := NewUserRecord(
        name, email, hashOf(password), role, if houses.Some? then houses.value else [],
        createdAt, registrationNote, homesideUsername, homesidePassword, houseFriendlyName)]
    {
      if username in users {
        return false;
      }
      var record := NewUserRecord(name, email, hashOf(password), role, if houses.Some? then houses.value else [],
                                  createdAt, registrationNote, homesideUsername, homesidePassword, houseFriendlyName);
      users := users[username := record];
      return true;
    }

    /** `update_user`: applies the keyword arguments to an existing user only. */
    method UpdateUser(username: string, updates: seq<(string, Value)>, hashOf: string -> string) returns (ok: bool)
      modifies this
      ensures ok <==> username in old(users)
      ensures pendingActions == old(pendingActions)
      ensures !ok ==> users == old(users)
      ensures ok ==> users == old(users)[username := ApplyUpdates(old(users)[username], updates, hashOf)]
    {
      if username !in users {
        return false;
      }
      var record := users[username];
      for i := 0 to |updates|
        invariant record == ApplyUpdates(users[username], updates[..i], hashOf)
      {
        assert updates[..i + 1][..i] == updates[..i];
        var (key, value) := updates[i];
        if key == "password" {
          if value.Text? {
            record := record["password_hash" := Text(hashOf(value.text))];
          }
        } else if key in record {
          record := record[key := value];
        }
      }
      assert updates[..|updates|] == updates;
      users := users[username := record];
      return true;
    }

    /** `delete_user`. */
    method DeleteUser(username: string) returns (ok: bool)
      modifies this
      ensures ok <==> username in old(users)
      ensures users == old(users) - {username} && pendingActions == old(pendingActions)
    {
      ok := username in users;
      users := users - {username};
    }

    /**
     * `approve_user`: only a user whose role is "pending" is approved; the
     * role is normalised and the houses and the approver recorded.
     */
    method ApproveUser(username: string, houses: seq<string>, approvedBy: string, role: string, approvedAt: string)
      returns (ok: bool)
      modifies this
      requires username in users ==> WellFormed(users[username])
      ensures ok <==> username in old(users) && RoleOf(old(users)[username]) == PendingRole
      ensures pendingActions == old(pendingActions)
      ensures !ok ==> users == old(users)
      ensures ok ==> users.Keys == old(users).Keys && forall u :: u in users && u != username ==> users[u] == old(users)[u]
      ensures ok ==>
        && WellFormed(users[username]) && RoleOf(users[username]) == NormalizeRole(role)
        && RoleOf(users[username]) != PendingRole
        && HousesOf(users[username]) == houses
        && "approved_by" in users[username] && users[username]["approved_by"] == Text(approvedBy)
      ensures ok ==> users == old(users)[username := old(users)[username]
        ["role" := Text(NormalizeRole(role))]["houses" := TextList(houses)]
        ["approved_by" := Text(approvedBy)]["approved_at" := Text(approvedAt)]]
    {
      if username !in users || RoleOf(users[username]) != PendingRole {
        return false;
      }
      var record := users[username];
      record := record["role" := Text(NormalizeRole(role))]["houses" := TextList(houses)];
      record := record["approved_by" := Text(approvedBy)]["approved_at" := Text(approvedAt)];
      users := users[username := record];
      return true;
    }

    /** `create_pending_action`: a fresh token (drawn by the caller) for an action expiring after the given hours. */
    method CreatePendingAction(token: string, actionType: string, houseId: string, userId: string,
                               description: string, expiresHours: int, now: int)
      modifies this
      ensures users == old(users)
      ensures pendingActions == old(pendingActions)[token := PendingAction(
        actionType, houseId, userId, description, now, now + expiresHours * SecondsPerHour, "pending", None)]
    {
      pendingActions := pendingActions[token := PendingAction(
        actionType, houseId, userId, description, now, now + expiresHours * SecondsPerHour, "pending", None)];
    }

    /** `complete_action`: records the result of an existing action. */
    method CompleteAction(token: string, result: string, now: int) returns (ok: bool)
      modifies this
      ensures ok <==> token in old(pendingActions)
      ensures users == old(users)
      ensures !ok ==> pendingActions == old(pendingActions)
      ensures ok ==> pendingActions == old(pendingActions)[token := old(pendingActions)[token].(status := result, completedAt := Some(now))]
    {
      if token !in pendingActions {
        return false;
      }
      pendingActions := pendingActions[token := pendingActions[token].(status := result, completedAt := Some(now))];
      return true;
    }
  }

  /** A freshly created action is pending until it expires, and not after. */
  lemma NewActionPendingUntilExpiry(actions: map<string, PendingAction>, token: string, action: PendingAction, now: int)
    requires action.status == "pending"
    ensures GetPendingAction(actions[token := action], token, now).Some? <==> now <= action.expiresAt
  {
  }

  /** Once completed with any result other than "pending", an action is no longer offered. */
  lemma CompletedActionIsGone(actions: map<string, PendingAction>, token: string, result: string, done: int, now: int)
    requires token in actions && result != "pending"
    ensures GetPendingAction(actions[token := actions[token].(status := result, completedAt := Some(done))], token, now).None?
  {
  }
}
