/** The User document as the user controller reads and writes it. */
module UserSchema {
  import opened Common

  /** `password` holds the bcrypt digest, never the plaintext. */
  datatype User = User(
    name: string,
    username: string,
    password: string,
    email: string,
    age: Option<int>,
    picture: Option<string>)

  /** A user as the read queries return it: `.select("-password")`. */
  datatype PublicUser = PublicUser(
    name: string,
    username: string,
    email: string,
    age: Option<int>,
    picture: Option<string>)

  function Public(u: User): (p: PublicUser)
    ensures p.username == u.username && p.name == u.name && p.email == u.email
    ensures p.age == u.age && p.picture == u.picture
  {
    PublicUser(u.name, u.username, u.email, u.age, u.picture)
  }

  /** The `unique: true` constraint on usernames. */
  predicate UniqueUsernames(users: map<Id, User>)
  {
    forall a, b | a in users && b in users :: users[a].username == users[b].username ==> a == b
  }

  /** The ids of the users whose username is `username`. */
  function Holders(users: map<Id, User>, username: string): (r: set<Id>)
    ensures forall k :: k in r <==> k in users && users[k].username == username
  {
    set k | k in users && users[k].username == username
  }

  /** With unique usernames, at most one user holds any given username. */
  lemma AtMostOneHolder(users: map<Id, User>, username: string)
    requires UniqueUsernames(users)
    ensures |Holders(users, username)| <= 1
  {
    var h := Holders(users, username);
    if h != {} {
      var a :| a in h;
      assert h == {a};
    }
  }
}
