/** `UserManager` of services.py: the user records of users.json, keyed by
    user id, in the order the dictionary holds them. Loading and saving the
    file, the uuid and the bcrypt hash are outside the model: ids and hashes
    are parameters. */
module Users {
  import opened Wrappers

  /** A settings value as JSON carries it. */
  datatype SettingValue = Str(s: string) | Int(i: int) | List(items: seq<string>) | Null

  type Settings = map<string, SettingValue>

  /** One stored record; `settings` may be missing from a loaded file. */
  datatype UserRecord = UserRecord(username: string, email: string, hashedPassword: string,
                                   settings: Option<Settings>)

  /** The `User` model the lookups return. */
  datatype User = User(id: string, username: string, email: string, hashedPassword: string,
                       settings: Settings)

  /** `User(...)` built from an id and its record; a missing settings entry reads as `{}`. */
  function ToUser(id: string, rec: UserRecord): User
  {
    User(id, rec.username, rec.email, rec.hashedPassword,
         if rec.settings.Some? then rec.settings.value else map[])
  }

  predicate HasEmail(users: map<string, UserRecord>, email: string)
  {
    exists id :: id in users && users[id].email == email
  }

  /** No two records share an email. */
  predicate UniqueEmails(users: map<string, UserRecord>)
  {
    forall a, b :: a in users && b in users && users[a].email == users[b].email ==> a == b
  }

  class UserManager {
    var users: map<string, UserRecord>
    /** The keys of `users` in dictionary order. */
    var order: seq<string>

    ghost predicate Valid()
      reads this
    {
      && (forall i :: 0 <= i < |order| ==> order[i] in users)
      && (forall id :: id in users ==> id in order)
      && (forall i, j :: 0 <= i < j < |order| ==> order[i] != order[j])
    }

    /** A manager over a freshly created, empty users file. */
    constructor ()
      ensures Valid() && users == map[] && order == []
    {
      users := map[];
      order := [];
    }

    /** `get_user_by_email`: the first user in dictionary order with that
        email, or `None` when there is none. */
    method GetUserByEmail(email: string) returns (u: Option<User>)
      requires Valid()
      ensures u.None? <==> !HasEmail(users, email)
      ensures u.Some? ==> exists i :: && 0 <= i < |order|
                                       && u.value == ToUser(order[i], users[order[i]])
                                       && users[order[i]].email == email
                                       && (forall k :: 0 <= k < i ==> users[order[k]].email != email)
    {
      var i := 0;
      while i < |order|
        invariant 0 <= i <= |order|
        invariant forall k :: 0 <= k < i ==> users[order[k]].email != email
      {
        var id := order[i];
        if users[id].email == email {
          return Some(ToUser(id, users[id]));
        }
        i := i + 1;
      }
      forall id | id in users ensures users[id].email != email {
        var k :| 0 <= k < |order| && order[k] == id;
      }
      return None;
    }

    /** `get_user_by_id`. */
    function GetUserById(userId: string): (u: Option<User>)
      reads this
      ensures u.None? <==> userId !in users
      ensures u.Some? ==> u.value == ToUser(userId, users[userId]) && u.value.id == userId
    {
      if userId in users then Some(ToUser(userId, users[userId])) else None
    }

    /** `create_user`: refused (`None`) when the email is taken; otherwise a
        record with empty settings is stored under the new id. */
    method CreateUser(username: string, email: string, hashedPassword: string, newId: string)
      returns (u: Option<User>)
      requires Valid()
      modifies this
      ensures Valid()
      ensures u.None? <==> old(HasEmail(users, email))
      ensures u.None? ==> users == old(users) && order == old(order)
      ensures u.Some? ==>
        && u.value == User(newId, username, email, hashedPassword, map[])
        && users == old(users)[newId := UserRecord(username, email, hashedPassword, Some(map[]))]
        && order == (if newId in old(users) then old(order) else old(order) + [newId])
    {
      var existing := GetUserByEmail(email);
      if existing.Some? {
        return None;
      }
      users := users[newId := UserRecord(username, email, hashedPassword, Some(map[]))];
      if newId !in order {
        order := order + [newId];
      }
      u := Some(User(newId, username, email, hashedPassword, map[]));
    }

    /** `update_user_settings`: true exactly when the user exists, whose
        settings are then replaced as a whole. */
    method UpdateUserSettings(userId: string, settings: Settings) returns (ok: bool)
      modifies this
      ensures ok <==> userId in old(users)
      ensures ok ==> users == old(users)[userId := old(users[userId]).(settings := Some(settings))]
      ensures !ok ==> users == old(users)
      ensures order == old(order)
    {
      if userId in users {
        users := users[userId := users[userId].(settings := Some(settings))];
        return true;
      }
      return false;
    }
  }

  /** Because creation refuses a taken email, emails stay unique. */
  lemma CreateKeepsEmailsUnique(users: map<string, UserRecord>, newId: string, rec: UserRecord)
    requires UniqueEmails(users) && !HasEmail(users, rec.email)
    ensures UniqueEmails(users[newId := rec])
  {
    var r := users[newId := rec];
    forall a, b | a in r && b in r && r[a].email == r[b].email ensures a == b {
      if a != newId && b != newId {
        assert users[a].email == users[b].email;
      }
    }
  }

  /** Replacing settings keeps every email, so emails stay unique. */
  lemma UpdateKeepsEmailsUnique(users: map<string, UserRecord>, userId: string, settings: Settings)
    requires UniqueEmails(users) && userId in users
    ensures UniqueEmails(users[userId := users[userId].(settings := Some(settings))])
  {
    var r := users[userId := users[userId].(settings := Some(settings))];
    forall a, b | a in r && b in r && r[a].email == r[b].email ensures a == b {
      assert users[a].email == r[a].email && users[b].email == r[b].email;
    }
  }

  /** Registering and then looking the email up finds the new user, whoever
      else is stored. */
  method RegisterThenFind(m: UserManager, username: string, email: string, hash: string, newId: string)
    returns (created: Option<User>, found: Option<User>)
    requires m.Valid() && UniqueEmails(m.users)
    modifies m
    ensures created.Some? ==> found == created
    ensures created.None? ==> found.Some? && found.value.email == email
  {
    ghost var before := m.users;
    created := m.CreateUser(username, email, hash, newId);
    if created.Some? {
      CreateKeepsEmailsUnique(before, newId, UserRecord(username, email, hash, Some(map[])));
      assert m.users[newId].email == email;
      found := m.GetUserByEmail(email);
      var i :| 0 <= i < |m.order| && found.value == ToUser(m.order[i], m.users[m.order[i]])
               && m.users[m.order[i]].email == email;
      assert m.order[i] == newId;
    } else {
      found := m.GetUserByEmail(email);
    }
  }
}
